/**
  `DatabaseStorage`: the business, document-transaction and admin tables and the
  operations the server runs on them.

  Each table is a sequence of rows in insertion order, and each `serial` id column
  is a counter. The reads (`getBusinessById`, `getAllBusinesses`, `searchBusinesses`,
  `getDocumentTransactionsByBusinessId`, `authenticateAdmin`, `getAdminByUsername`)
  are functions of the tables. Each write is a function that computes its outcome
  from the tables, and a method of `DatabaseStorage` that applies it. The store's
  constraints (primary keys, unique `taxId` and `username`, the `varchar(20)`
  columns, the foreign key from transactions to businesses) are the predicates
  `BusinessesValid`, `TransactionsValid` and `AdminsValid`, kept by every write.
  Timestamps (`CURRENT_TIMESTAMP`, `new Date()`) are the parameter `now`.
 */
module Storage {
  import opened Wrappers
  import opened Seqs
  import opened Strings
  import opened Schema

  /** The database errors a write can raise. */
  datatype StoreError =
    | DuplicateKey           // a unique column already holds the value
    | ValueTooLong           // a varchar(20) column gets a longer string
    | NoValuesToSet          // an UPDATE with nothing in its SET clause
    | ForeignKeyViolation    // a transaction for a business that does not exist
    | InvalidDate            // `new Date(s)` is an invalid date
    | NegativeLimitOrOffset  // LIMIT or OFFSET below zero

  function BusinessIdOf(b: Business): int { b.id }
  function TaxIdOf(b: Business): string { b.taxId }
  function CreatedAtOf(b: Business): int { b.createdAt }
  function TransactionIdOf(t: DocumentTransaction): int { t.id }
  function TransactionDateOf(t: DocumentTransaction): int { t.transactionDate }
  function AdminIdOf(a: AdminUser): int { a.id }
  function UsernameOf(a: AdminUser): string { a.username }

  // ---------------------------------------------------------------------------
  // Businesses

  /** Primary key, unique `taxId`, column lengths, and every id below the counter. */
  predicate BusinessesValid(rows: seq<Business>, nextId: int) {
    && DistinctBy(rows, BusinessIdOf)
    && DistinctBy(rows, TaxIdOf)
    && forall i :: 0 <= i < |rows| ==> rows[i].id < nextId && WithinColumnLengths(rows[i])
  }

  /** `getBusinessById`: the row with that id, or `undefined`. */
  function GetBusinessById(rows: seq<Business>, id: int): (r: Option<Business>)
    ensures r.Some? <==> exists i :: 0 <= i < |rows| && rows[i].id == id
    ensures r.Some? ==> r.value in rows && r.value.id == id
  {
    Find(rows, BusinessIdOf, id)
  }

  /** The row an insert stores: the submitted fields, the new id, `{}` for `customFields` when left out. */
  function NewBusiness(x: InsertBusiness, id: int, now: int): Business {
    Business(id, x.name, x.taxId, x.address, x.phone, x.email, x.website, x.industry,
             x.contactPerson, x.account, x.password, x.bankAccount, x.bankName,
             match x.customFields { case Omitted => Some(map[]) case Given(v) => v },
             x.notes, now)
  }

  /** Some row other than the one with id `id` already holds tax ID `taxId`. */
  predicate TaxIdTaken(rows: seq<Business>, taxId: string, id: int) {
    exists i :: 0 <= i < |rows| && rows[i].taxId == taxId && rows[i].id != id
  }

  /** What the database says about storing `b`: the length check first, then the unique index. */
  function CheckBusinessRow(rows: seq<Business>, b: Business): (r: Option<StoreError>)
    ensures r.None? <==> WithinColumnLengths(b) && !TaxIdTaken(rows, b.taxId, b.id)
  {
    if !WithinColumnLengths(b) then Some(ValueTooLong)
    else if TaxIdTaken(rows, b.taxId, b.id) then Some(DuplicateKey)
    else None
  }

  /** `createBusiness`: the stored row, or the database error. */
  function CreateBusinessIn(rows: seq<Business>, x: InsertBusiness, id: int, now: int): (r: Result<Business, StoreError>)
    ensures r == Failure(ValueTooLong) <==> !InsertWithinLengths(x)
    ensures r == Failure(DuplicateKey) <==> InsertWithinLengths(x) && TaxIdTaken(rows, x.taxId, id)
    ensures r.Success? <==> InsertWithinLengths(x) && !TaxIdTaken(rows, x.taxId, id)
    ensures r.Success? ==> r.value.id == id && r.value.createdAt == now && r.value.taxId == x.taxId
  {
    var b := NewBusiness(x, id, now);
    match CheckBusinessRow(rows, b)
    case Some(e) => Failure(e)
    case None => Success(b)
  }

  /**
    A created business carries the new id and the submitted fields; `customFields`
    falls back to `{}` when left out.
   */
  lemma CreatedBusinessFields(rows: seq<Business>, x: InsertBusiness, id: int, now: int)
    requires CreateBusinessIn(rows, x, id, now).Success?
    ensures var b := CreateBusinessIn(rows, x, id, now).value;
      && b.id == id && b.createdAt == now
      && b.name == x.name && b.taxId == x.taxId && b.address == x.address && b.phone == x.phone
      && b.email == x.email && b.website == x.website && b.industry == x.industry
      && b.contactPerson == x.contactPerson && b.account == x.account && b.password == x.password
      && b.bankAccount == x.bankAccount && b.bankName == x.bankName && b.notes == x.notes
      && b.customFields == (if x.customFields.Omitted? then Some(map[]) else x.customFields.value)
  {
  }

  /** A create fails with a duplicate key exactly when another row holds the tax ID (and the lengths fit). */
  lemma CreateDuplicateIff(rows: seq<Business>, x: InsertBusiness, id: int, now: int)
    requires forall i :: 0 <= i < |rows| ==> rows[i].id < id
    requires InsertWithinLengths(x)
    ensures CreateBusinessIn(rows, x, id, now) == Failure(DuplicateKey)
            <==> exists i :: 0 <= i < |rows| && rows[i].taxId == x.taxId
  {
    if exists i :: 0 <= i < |rows| && rows[i].taxId == x.taxId {
      var i :| 0 <= i < |rows| && rows[i].taxId == x.taxId;
      assert rows[i].id != id;
    }
  }

  /** Storing a created business keeps the table's constraints and advances the counter. */
  lemma CreateKeepsValid(rows: seq<Business>, x: InsertBusiness, id: int, now: int)
    requires BusinessesValid(rows, id)
    requires CreateBusinessIn(rows, x, id, now).Success?
    ensures BusinessesValid(rows + [CreateBusinessIn(rows, x, id, now).value], id + 1)
  {
    var b := NewBusiness(x, id, now);
    assert CheckBusinessRow(rows, b).None?;
    var r := rows + [b];
    forall i, j | 0 <= i < j < |r| ensures r[i].id != r[j].id && r[i].taxId != r[j].taxId {
      if j == |rows| {
        assert r[i] == rows[i];
      }
    }
  }

  /** After a create, `getBusinessById` on the new id returns the created row. */
  lemma CreateThenGet(rows: seq<Business>, x: InsertBusiness, id: int, now: int, other: int)
    requires BusinessesValid(rows, id)
    requires CreateBusinessIn(rows, x, id, now).Success?
    ensures var b := CreateBusinessIn(rows, x, id, now).value;
      GetBusinessById(rows + [b], other) == if other == id then Some(b) else GetBusinessById(rows, other)
  {
    var b := CreateBusinessIn(rows, x, id, now).value;
    FindAppended(rows, BusinessIdOf, b, other);
  }

  /** A second create with a tax ID that is already stored fails. */
  lemma SecondCreateWithSameTaxIdFails(rows: seq<Business>, x: InsertBusiness, y: InsertBusiness,
                                       id: int, now: int, later: int)
    requires BusinessesValid(rows, id)
    requires CreateBusinessIn(rows, x, id, now).Success?
    requires y.taxId == x.taxId
    ensures var rows' := rows + [CreateBusinessIn(rows, x, id, now).value];
      CreateBusinessIn(rows', y, id + 1, later).Failure?
  {
    var rows' := rows + [CreateBusinessIn(rows, x, id, now).value];
    assert rows'[|rows|].taxId == y.taxId && rows'[|rows|].id != id + 1;
  }

  /** The result of `getAllBusinesses`: one page of rows and the row count. */
  datatype Listing = Listing(businesses: seq<Business>, total: nat)

  /**
    `getAllBusinesses(page, limit)`: newest first, skipping `(page - 1) * limit` rows,
    at most `limit` of them; a negative LIMIT or OFFSET is a database error.
   */
  function ListBusinesses(rows: seq<Business>, page: int, limit: int): (r: Result<Listing, StoreError>)
    ensures r.Success? <==> limit >= 0 && (page - 1) * limit >= 0
    ensures r.Success? ==> r.value.total == |rows| && |r.value.businesses| <= limit
  {
    var offset := (page - 1) * limit;
    if limit < 0 || offset < 0 then Failure(NegativeLimitOrOffset)
    else Success(Listing(Page(SortDesc(rows, CreatedAtOf), offset, limit), |rows|))
  }

  /** A listed page is newest first and holds only stored rows. */
  lemma ListingSortedAndStored(rows: seq<Business>, page: int, limit: int)
    requires ListBusinesses(rows, page, limit).Success?
    ensures var l := ListBusinesses(rows, page, limit).value.businesses;
      && SortedDescBy(l, CreatedAtOf)
      && forall i :: 0 <= i < |l| ==> l[i] in rows
  {
    var sorted := SortDesc(rows, CreatedAtOf);
    PageOfSorted(sorted, CreatedAtOf, (page - 1) * limit, limit);
    var l := ListBusinesses(rows, page, limit).value.businesses;
    forall i | 0 <= i < |l| ensures l[i] in rows {
      assert l[i] in multiset(sorted);
    }
  }

  /** Pages 1 to `k` of the listing, one after the other. */
  function ListedPages(rows: seq<Business>, limit: nat, k: nat): seq<Business> {
    if k == 0 then []
    else
      var p := ListBusinesses(rows, k, limit);
      ListedPages(rows, limit, k - 1) + (if p.Success? then p.value.businesses else [])
  }

  /**
    Consecutive pages tile the newest-first order: pages 1 to `k` together are its
    first `k * limit` rows, so no row is skipped or shown twice.
   */
  lemma {:induction false} ListedPagesArePrefix(rows: seq<Business>, limit: nat, k: nat)
    requires limit > 0
    ensures ListedPages(rows, limit, k) == SortDesc(rows, CreatedAtOf)[..Min(k * limit, |rows|)]
  {
    ListedPagesAreFirstPages(rows, limit, k);
    FirstPagesArePrefix(SortDesc(rows, CreatedAtOf), limit, k);
  }

  lemma {:induction false} ListedPagesAreFirstPages(rows: seq<Business>, limit: nat, k: nat)
    ensures ListedPages(rows, limit, k) == FirstPages(SortDesc(rows, CreatedAtOf), limit, k)
  {
    if k == 0 {
      NoListedPages(rows, limit);
    } else {
      ListedPagesAreFirstPages(rows, limit, k - 1);
      ListedPagesExtend(rows, limit, k);
    }
  }

  lemma NoListedPages(rows: seq<Business>, limit: nat)
    ensures ListedPages(rows, limit, 0) == FirstPages(SortDesc(rows, CreatedAtOf), limit, 0)
  {
  }

  /** Listing one more page extends both sides by the same page. */
  lemma ListedPagesExtend(rows: seq<Business>, limit: nat, k: nat)
    requires k > 0
    requires ListedPages(rows, limit, k - 1) == FirstPages(SortDesc(rows, CreatedAtOf), limit, k - 1)
    ensures ListedPages(rows, limit, k) == FirstPages(SortDesc(rows, CreatedAtOf), limit, k)
  {
    ListedPagesStep(rows, limit, k);
    FirstPagesStep(SortDesc(rows, CreatedAtOf), limit, k);
  }

  /** Page `k` of the listing is the `k`-th page of the newest-first order. */
  lemma ListedPagesStep(rows: seq<Business>, limit: nat, k: nat)
    requires k > 0
    ensures ListedPages(rows, limit, k)
            == ListedPages(rows, limit, k - 1) + Page(SortDesc(rows, CreatedAtOf), (k - 1) * limit, limit)
  {
    ListingIsPage(rows, k, limit);
  }

  lemma ListingIsPage(rows: seq<Business>, page: nat, limit: nat)
    requires page >= 1
    ensures ListBusinesses(rows, page, limit)
            == Success(Listing(Page(SortDesc(rows, CreatedAtOf), (page - 1) * limit, limit), |rows|))
  {
    var p: nat := page - 1;
    assert p * limit >= 0;
  }

  // Search

  /** Equality on the column, or `LIKE '%value%'`. */
  datatype Comparison = Exact | Partial

  /** The `switch (field)` of `searchBusinesses`: the column and comparison of each tag. */
  function SearchColumn(field: string): Option<(Column, Comparison)> {
    match field
    case "address" => Some((AddressColumn, Exact))
    case "addressPartial" => Some((AddressColumn, Partial))
    case "name" => Some((NameColumn, Exact))
    case "namePartial" => Some((NameColumn, Partial))
    case "taxId" => Some((TaxIdColumn, Exact))
    case "industry" => Some((IndustryColumn, Exact))
    case "contactPerson" => Some((ContactPersonColumn, Exact))
    case "phone" => Some((PhoneColumn, Exact))
    case "email" => Some((EmailColumn, Exact))
    case "website" => Some((WebsiteColumn, Exact))
    case "account" => Some((AccountColumn, Exact))
    case "bankAccount" => Some((BankAccountColumn, Exact))
    case "bankName" => Some((BankNameColumn, Exact))
    case _ => None
  }

  /** The switch has a case for exactly the tags the search validator admits. */
  lemma SearchColumnCoversTags(field: string)
    ensures SearchColumn(field).Some? <==> field in SearchFields
  {
  }

  /** Only `namePartial` and `addressPartial` compare with LIKE. */
  lemma PartialTags(field: string, c: Column)
    ensures SearchColumn(field) == Some((c, Partial))
            <==> (field == "namePartial" && c == NameColumn) || (field == "addressPartial" && c == AddressColumn)
  {
  }

  /** The WHERE clause: a NULL column never matches. */
  predicate Matches(b: Business, c: Column, cmp: Comparison, value: string) {
    match ColumnValue(b, c)
    case None => false
    case Some(v) => match cmp { case Exact => v == value case Partial => Like(v, ContainsPattern(value)) }
  }

  /** `searchBusinesses`: the rows, in table order, that match; `[]` for any other tag. */
  function SearchBusinesses(rows: seq<Business>, s: SearchBusiness): (r: seq<Business>)
    ensures multiset(r) <= multiset(rows)
  {
    match SearchColumn(s.field)
    case None => []
    case Some((c, cmp)) =>
      var p := (b: Business) => Matches(b, c, cmp, s.value);
      FilterSubMultiset(rows, p);
      Filter(rows, p)
  }

  /** An exact search returns exactly the rows whose column equals the value. */
  lemma SearchExact(rows: seq<Business>, s: SearchBusiness, c: Column, b: Business)
    requires SearchColumn(s.field) == Some((c, Exact))
    ensures b in SearchBusinesses(rows, s) <==> b in rows && ColumnValue(b, c) == Some(s.value)
  {
  }

  /**
    A partial search returns exactly the rows whose column matches `%value%`; when the
    value holds no `%`, `_` or backslash, that is: the column contains the value.
   */
  lemma SearchPartial(rows: seq<Business>, s: SearchBusiness, c: Column, b: Business)
    requires SearchColumn(s.field) == Some((c, Partial))
    ensures b in SearchBusinesses(rows, s)
            <==> b in rows && ColumnValue(b, c).Some? && Like(ColumnValue(b, c).value, ContainsPattern(s.value))
    ensures NoWildcards(s.value) ==>
            (b in SearchBusinesses(rows, s) <==> b in rows && ColumnValue(b, c).Some? && Occurs(s.value, ColumnValue(b, c).value))
  {
    if NoWildcards(s.value) && ColumnValue(b, c).Some? {
      LikeContainsPattern(ColumnValue(b, c).value, s.value);
    }
  }

  /** A tag the switch does not know returns no rows. */
  lemma SearchUnknownTag(rows: seq<Business>, s: SearchBusiness)
    requires s.field !in SearchFields
    ensures SearchBusinesses(rows, s) == []
  {
    SearchColumnCoversTags(s.field);
  }

  // Update

  function Apply<T>(o: Optional<T>, current: T): T {
    match o
    case Omitted => current
    case Given(v) => v
  }

  /** `SET` the fields the patch gives; the others, `id` and `createdAt` stay. */
  function PatchBusiness(b: Business, p: BusinessPatch): Business {
    b.(name := Apply(p.name, b.name), taxId := Apply(p.taxId, b.taxId),
       address := Apply(p.address, b.address), phone := Apply(p.phone, b.phone),
       email := Apply(p.email, b.email), website := Apply(p.website, b.website),
       industry := Apply(p.industry, b.industry), contactPerson := Apply(p.contactPerson, b.contactPerson),
       account := Apply(p.account, b.account), password := Apply(p.password, b.password),
       bankAccount := Apply(p.bankAccount, b.bankAccount), bankName := Apply(p.bankName, b.bankName),
       customFields := Apply(p.customFields, b.customFields), notes := Apply(p.notes, b.notes))
  }

  /** The patch's entry for a searchable column. */
  function PatchColumn(p: BusinessPatch, c: Column): Optional<Option<string>> {
    match c
    case NameColumn => if p.name.Given? then Given(Some(p.name.value)) else Omitted
    case TaxIdColumn => if p.taxId.Given? then Given(Some(p.taxId.value)) else Omitted
    case AddressColumn => p.address
    case PhoneColumn => p.phone
    case EmailColumn => p.email
    case WebsiteColumn => p.website
    case IndustryColumn => p.industry
    case ContactPersonColumn => p.contactPerson
    case AccountColumn => p.account
    case BankAccountColumn => p.bankAccount
    case BankNameColumn => p.bankName
  }

  /**
    An update changes only what it gives: a column the patch gives takes the given
    value, every other column keeps its value, and `id` and `createdAt` never change.
   */
  lemma PatchChangesOnlyGiven(b: Business, p: BusinessPatch, c: Column)
    ensures var b' := PatchBusiness(b, p);
      && b'.id == b.id && b'.createdAt == b.createdAt
      && ColumnValue(b', c) == (if PatchColumn(p, c).Given? then PatchColumn(p, c).value else ColumnValue(b, c))
      && b'.customFields == (if p.customFields.Given? then p.customFields.value else b.customFields)
      && b'.password == (if p.password.Given? then p.password.value else b.password)
      && b'.notes == (if p.notes.Given? then p.notes.value else b.notes)
  {
  }

  /** Applying the same patch twice is applying it once. */
  lemma PatchIdempotent(b: Business, p: BusinessPatch)
    ensures PatchBusiness(PatchBusiness(b, p), p) == PatchBusiness(b, p)
  {
  }

  /** The row with the patched row's id replaced by it. */
  function ReplaceRow(rows: seq<Business>, b: Business): (r: seq<Business>)
    ensures |r| == |rows|
    ensures forall i :: 0 <= i < |rows| ==> r[i] == if rows[i].id == b.id then b else rows[i]
  {
    seq(|rows|, i requires 0 <= i < |rows| => if rows[i].id == b.id then b else rows[i])
  }

  /**
    `updateBusiness`: an empty SET is an error whatever the id; no row with the id
    gives `undefined`; otherwise the patched row, if the database accepts it.
   */
  function UpdateIn(rows: seq<Business>, u: UpdateBusiness): (r: Result<Option<Business>, StoreError>)
    ensures u.patch == EmptyPatch ==> r == Failure(NoValuesToSet)
    ensures u.patch != EmptyPatch && GetBusinessById(rows, u.id).None? ==> r == Success(None)
    ensures u.patch != EmptyPatch && GetBusinessById(rows, u.id).Some? ==>
              var b' := PatchBusiness(GetBusinessById(rows, u.id).value, u.patch);
              && (r.Success? <==> WithinColumnLengths(b') && !TaxIdTaken(rows, b'.taxId, u.id))
              && (r.Success? ==> r.value == Some(b'))
  {
    if u.patch == EmptyPatch then Failure(NoValuesToSet)
    else match GetBusinessById(rows, u.id)
      case None => Success(None)
      case Some(b) =>
        var b' := PatchBusiness(b, u.patch);
        match CheckBusinessRow(rows, b')
        case Some(e) => Failure(e)
        case None => Success(Some(b'))
  }

  /** An update of a missing id returns `undefined` (when there is something to set) and never errors for that. */
  lemma UpdateMissingId(rows: seq<Business>, u: UpdateBusiness)
    requires forall i :: 0 <= i < |rows| ==> rows[i].id != u.id
    ensures UpdateIn(rows, u) == if u.patch == EmptyPatch then Failure(NoValuesToSet) else Success(None)
  {
  }

  /** A successful update stores a row with the same id and creation time, and keeps the constraints. */
  lemma UpdateKeepsValid(rows: seq<Business>, nextId: int, u: UpdateBusiness)
    requires BusinessesValid(rows, nextId)
    requires UpdateIn(rows, u).Success? && UpdateIn(rows, u).value.Some?
    ensures var b' := UpdateIn(rows, u).value.value;
      && GetBusinessById(rows, u.id).Some?
      && b'.id == u.id && b'.createdAt == GetBusinessById(rows, u.id).value.createdAt
      && BusinessesValid(ReplaceRow(rows, b'), nextId)
      && GetBusinessById(ReplaceRow(rows, b'), u.id) == Some(b')
  {
    var b := GetBusinessById(rows, u.id).value;
    var b' := PatchBusiness(b, u.patch);
    assert CheckBusinessRow(rows, b').None?;
    ReplaceRowKeepsValid(rows, nextId, b');
  }

  /** Replacing a stored row by one that passes the checks keeps the constraints. */
  lemma ReplaceRowKeepsValid(rows: seq<Business>, nextId: int, b: Business)
    requires BusinessesValid(rows, nextId)
    requires GetBusinessById(rows, b.id).Some?
    requires WithinColumnLengths(b) && !TaxIdTaken(rows, b.taxId, b.id)
    ensures BusinessesValid(ReplaceRow(rows, b), nextId)
    ensures GetBusinessById(ReplaceRow(rows, b), b.id) == Some(b)
  {
    var r := ReplaceRow(rows, b);
    forall i, j | 0 <= i < j < |r| ensures r[i].id != r[j].id && r[i].taxId != r[j].taxId {
      if rows[i].id == b.id {
        assert r[j] == rows[j];
      } else if rows[j].id == b.id {
        assert r[i] == rows[i];
      }
    }
    var k :| 0 <= k < |rows| && rows[k].id == b.id;
    assert r[k] == b;
    FindDistinct(r, BusinessIdOf, k);
  }

  // Delete

  function WithoutBusiness(rows: seq<Business>, id: int): seq<Business> {
    Filter(rows, (b: Business) => b.id != id)
  }

  /** `onDelete: "cascade"`: the transactions of the deleted business go with it. */
  function WithoutTransactionsOf(txs: seq<DocumentTransaction>, businessId: int): seq<DocumentTransaction> {
    Filter(txs, (t: DocumentTransaction) => t.businessId != businessId)
  }

  /** `deleteBusiness` reports a removal exactly when a row had the id, and the id is then gone. */
  lemma DeleteRemoves(rows: seq<Business>, id: int)
    ensures (|WithoutBusiness(rows, id)| < |rows|) <==> GetBusinessById(rows, id).Some?
    ensures GetBusinessById(WithoutBusiness(rows, id), id) == None
  {
    FilterCount(rows, (b: Business) => b.id != id);
  }

  /** Deleting keeps every other row. */
  lemma DeleteKeepsOthers(rows: seq<Business>, id: int, b: Business)
    ensures b in WithoutBusiness(rows, id) <==> b in rows && b.id != id
  {
  }

  /** A repeated delete removes nothing, so it reports `false`. */
  lemma DeleteIdempotent(rows: seq<Business>, id: int)
    ensures WithoutBusiness(WithoutBusiness(rows, id), id) == WithoutBusiness(rows, id)
    ensures GetBusinessById(WithoutBusiness(rows, id), id).None?
  {
    var once := WithoutBusiness(rows, id);
    FilterKeepsAll(once, (b: Business) => b.id != id);
    DeleteRemoves(rows, id);
  }

  /** Deleting a business keeps the business table's constraints. */
  lemma DeleteKeepsValid(rows: seq<Business>, nextId: int, id: int)
    requires BusinessesValid(rows, nextId)
    ensures BusinessesValid(WithoutBusiness(rows, id), nextId)
  {
    var p := (b: Business) => b.id != id;
    FilterKeepsDistinct(rows, p, BusinessIdOf);
    FilterKeepsDistinct(rows, p, TaxIdOf);
    var r := WithoutBusiness(rows, id);
    forall i | 0 <= i < |r| ensures r[i].id < nextId && WithinColumnLengths(r[i]) {
      assert r[i] in r;
      var k :| 0 <= k < |rows| && rows[k] == r[i];
    }
  }

  // ---------------------------------------------------------------------------
  // Document transactions

  /** Primary key, ids below the counter, and every transaction's business exists. */
  predicate TransactionsValid(txs: seq<DocumentTransaction>, rows: seq<Business>, nextId: int) {
    && DistinctBy(txs, TransactionIdOf)
    && forall i :: 0 <= i < |txs| ==> txs[i].id < nextId && GetBusinessById(rows, txs[i].businessId).Some?
  }

  /**
    The date `createDocumentTransaction` stores: the given string is parsed when it
    is non-empty; left out or `""` means now. `dateOf` stands for `new Date(s)`, with
    `None` for an invalid date.
   */
  function TransactionDate(given: Option<string>, now: int, dateOf: string -> Option<int>): (r: Option<int>)
    ensures given.None? || given == Some("") ==> r == Some(now)
    ensures given.Some? && given.value != "" ==> r == dateOf(given.value)
  {
    match given
    case Some(s) => if s != "" then dateOf(s) else Some(now)
    case None => Some(now)
  }

  /** `createDocumentTransaction`: the date first, then the foreign key. */
  function CreateTransactionIn(rows: seq<Business>, x: InsertDocumentTransaction, id: int, now: int,
                               dateOf: string -> Option<int>): (r: Result<DocumentTransaction, StoreError>)
    ensures r.Success? ==> r.value.id == id && r.value.businessId == x.businessId && r.value.createdAt == now
                           && GetBusinessById(rows, x.businessId).Some?
                           && Some(r.value.transactionDate) == TransactionDate(x.transactionDate, now, dateOf)
    ensures r.Success? ==> && r.value.documentType == x.documentType && r.value.transactionType == x.transactionType
                           && r.value.handledBy == x.handledBy && r.value.notes == x.notes
  {
    match TransactionDate(x.transactionDate, now, dateOf)
    case None => Failure(InvalidDate)
    case Some(date) =>
      if GetBusinessById(rows, x.businessId).None? then Failure(ForeignKeyViolation)
      else Success(DocumentTransaction(id, x.businessId, x.documentType, x.transactionType, x.handledBy,
                                       date, x.notes, now))
  }

  /** A transaction for a business that does not exist is refused; nothing else is (beyond the date). */
  lemma CreateTransactionIff(rows: seq<Business>, x: InsertDocumentTransaction, id: int, now: int,
                             dateOf: string -> Option<int>)
    ensures CreateTransactionIn(rows, x, id, now, dateOf).Success?
            <==> TransactionDate(x.transactionDate, now, dateOf).Some?
                 && exists i :: 0 <= i < |rows| && rows[i].id == x.businessId
  {
  }

  lemma CreateTransactionKeepsValid(txs: seq<DocumentTransaction>, rows: seq<Business>, x: InsertDocumentTransaction,
                                    id: int, now: int, dateOf: string -> Option<int>)
    requires TransactionsValid(txs, rows, id)
    requires CreateTransactionIn(rows, x, id, now, dateOf).Success?
    ensures TransactionsValid(txs + [CreateTransactionIn(rows, x, id, now, dateOf).value], rows, id + 1)
  {
    var t := CreateTransactionIn(rows, x, id, now, dateOf).value;
    var r := txs + [t];
    forall i, j | 0 <= i < j < |r| ensures r[i].id != r[j].id {
      if j == |txs| { assert r[i] == txs[i]; }
    }
  }

  /** `getDocumentTransactionsByBusinessId`: that business's transactions, latest date first. */
  function TransactionsOf(txs: seq<DocumentTransaction>, businessId: int): (r: seq<DocumentTransaction>)
    ensures SortedDescBy(r, TransactionDateOf)
    ensures multiset(r) == multiset(Filter(txs, (t: DocumentTransaction) => t.businessId == businessId))
  {
    SortDesc(Filter(txs, (t: DocumentTransaction) => t.businessId == businessId), TransactionDateOf)
  }

  /** The listing holds exactly the business's transactions. */
  lemma TransactionsOfHas(txs: seq<DocumentTransaction>, businessId: int, t: DocumentTransaction)
    ensures t in TransactionsOf(txs, businessId) <==> t in txs && t.businessId == businessId
  {
    var p := (t: DocumentTransaction) => t.businessId == businessId;
    assert t in TransactionsOf(txs, businessId) <==> t in multiset(TransactionsOf(txs, businessId));
    assert t in Filter(txs, p) <==> t in multiset(Filter(txs, p));
  }

  function WithoutTransaction(txs: seq<DocumentTransaction>, id: int): seq<DocumentTransaction> {
    Filter(txs, (t: DocumentTransaction) => t.id != id)
  }

  /** `deleteDocumentTransaction` reports a removal exactly when a transaction had the id. */
  lemma DeleteTransactionRemoves(txs: seq<DocumentTransaction>, id: int)
    ensures (|WithoutTransaction(txs, id)| < |txs|) <==> exists i :: 0 <= i < |txs| && txs[i].id == id
    ensures forall i :: 0 <= i < |WithoutTransaction(txs, id)| ==> WithoutTransaction(txs, id)[i].id != id
  {
    FilterCount(txs, (t: DocumentTransaction) => t.id != id);
    var r := WithoutTransaction(txs, id);
    forall i | 0 <= i < |r| ensures r[i].id != id {
      assert r[i] in r;
    }
  }

  /** Removing transactions keeps the transaction table's constraints. */
  lemma FilterTransactionsKeepsValid(txs: seq<DocumentTransaction>, rows: seq<Business>, nextId: int,
                                     p: DocumentTransaction -> bool)
    requires TransactionsValid(txs, rows, nextId)
    ensures TransactionsValid(Filter(txs, p), rows, nextId)
  {
    FilterKeepsDistinct(txs, p, TransactionIdOf);
    var r := Filter(txs, p);
    forall i | 0 <= i < |r| ensures r[i].id < nextId && GetBusinessById(rows, r[i].businessId).Some? {
      assert r[i] in r;
      var k :| 0 <= k < |txs| && txs[k] == r[i];
    }
  }

  /** The cascade leaves no transaction pointing at the deleted business. */
  lemma CascadeLeavesNoOrphans(txs: seq<DocumentTransaction>, rows: seq<Business>, nextT: int, id: int)
    requires TransactionsValid(txs, rows, nextT)
    ensures TransactionsValid(WithoutTransactionsOf(txs, id), WithoutBusiness(rows, id), nextT)
  {
    var p := (t: DocumentTransaction) => t.businessId != id;
    FilterTransactionsKeepsValid(txs, rows, nextT, p);
    var r := WithoutTransactionsOf(txs, id);
    forall i | 0 <= i < |r| ensures GetBusinessById(WithoutBusiness(rows, id), r[i].businessId).Some? {
      assert r[i] in r;
      var b := GetBusinessById(rows, r[i].businessId).value;
      DeleteKeepsOthers(rows, id, b);
      var k :| 0 <= k < |WithoutBusiness(rows, id)| && WithoutBusiness(rows, id)[k] == b;
    }
  }

  /** Deleting a business together with its transactions keeps both tables' constraints. */
  lemma DeleteCascadeKeepsValid(rows: seq<Business>, txs: seq<DocumentTransaction>, admins: seq<AdminUser>,
                                 nextB: int, nextT: int, nextA: int, id: int)
    requires TablesValid(rows, txs, admins, nextB, nextT, nextA)
    ensures TablesValid(WithoutBusiness(rows, id), WithoutTransactionsOf(txs, id), admins, nextB, nextT, nextA)
  {
    DeleteKeepsValid(rows, nextB, id);
    CascadeLeavesNoOrphans(txs, rows, nextT, id);
  }

  /** Rows added or replaced keep their ids, so transactions keep their business. */
  lemma TransactionsValidAfterBusinessWrite(txs: seq<DocumentTransaction>, rows: seq<Business>, rows': seq<Business>,
                                            nextT: int)
    requires TransactionsValid(txs, rows, nextT)
    requires forall id :: GetBusinessById(rows, id).Some? ==> GetBusinessById(rows', id).Some?
    ensures TransactionsValid(txs, rows', nextT)
  {
  }

  // ---------------------------------------------------------------------------
  // Admin users

  /** Primary key, unique `username`, ids below the counter. */
  predicate AdminsValid(admins: seq<AdminUser>, nextId: int) {
    && DistinctBy(admins, AdminIdOf)
    && DistinctBy(admins, UsernameOf)
    && forall i :: 0 <= i < |admins| ==> admins[i].id < nextId
  }

  /** `getAdminByUsername`. */
  function GetAdminByUsername(admins: seq<AdminUser>, username: string): (r: Option<AdminUser>)
    ensures r.Some? <==> exists i :: 0 <= i < |admins| && admins[i].username == username
    ensures r.Some? ==> r.value in admins && r.value.username == username
  {
    Find(admins, UsernameOf, username)
  }

  /** `createAdminUser`: a taken username is a duplicate key. */
  function CreateAdminIn(admins: seq<AdminUser>, x: InsertAdminUser, id: int, now: int): (r: Result<AdminUser, StoreError>)
    ensures r.Failure? <==> exists i :: 0 <= i < |admins| && admins[i].username == x.username
    ensures r.Success? ==> r.value == AdminUser(id, x.username, x.password, now)
  {
    if GetAdminByUsername(admins, x.username).Some? then Failure(DuplicateKey)
    else Success(AdminUser(id, x.username, x.password, now))
  }

  lemma CreateAdminKeepsValid(admins: seq<AdminUser>, x: InsertAdminUser, id: int, now: int)
    requires AdminsValid(admins, id)
    requires CreateAdminIn(admins, x, id, now).Success?
    ensures AdminsValid(admins + [CreateAdminIn(admins, x, id, now).value], id + 1)
  {
    var a := CreateAdminIn(admins, x, id, now).value;
    var r := admins + [a];
    forall i, j | 0 <= i < j < |r| ensures r[i].id != r[j].id && r[i].username != r[j].username {
      if j == |admins| { assert r[i] == admins[i]; }
    }
  }

  /** `authenticateAdmin`: the admin with that username, if the password is the stored one. */
  function AuthenticateAdmin(admins: seq<AdminUser>, login: LoginRequest): (r: Option<AdminUser>)
    ensures r.Some? ==> r.value in admins && r.value.username == login.username && r.value.password == login.password
    ensures GetAdminByUsername(admins, login.username).None? ==> r.None?
  {
    match GetAdminByUsername(admins, login.username)
    case Some(a) => if a.password == login.password then Some(a) else None
    case None => None
  }

  /** Authentication succeeds exactly for a stored username with its stored password, and returns that admin. */
  lemma AuthenticateIff(admins: seq<AdminUser>, nextId: int, login: LoginRequest)
    requires AdminsValid(admins, nextId)
    ensures AuthenticateAdmin(admins, login).Some?
            <==> exists i :: 0 <= i < |admins| && admins[i].username == login.username
                             && admins[i].password == login.password
    ensures AuthenticateAdmin(admins, login).Some? ==>
            AuthenticateAdmin(admins, login).value in admins
            && AuthenticateAdmin(admins, login).value.username == login.username
  {
    if exists i :: 0 <= i < |admins| && admins[i].username == login.username && admins[i].password == login.password {
      var i :| 0 <= i < |admins| && admins[i].username == login.username && admins[i].password == login.password;
      FindDistinct(admins, UsernameOf, i);
    }
  }

  /** Every row with that username gets the new password (`UPDATE ... WHERE username = ...`). */
  function SetPassword(admins: seq<AdminUser>, username: string, password: string): (r: seq<AdminUser>)
    ensures |r| == |admins|
    ensures forall i :: 0 <= i < |admins| ==>
              r[i] == if admins[i].username == username then admins[i].(password := password) else admins[i]
  {
    seq(|admins|, i requires 0 <= i < |admins| =>
      if admins[i].username == username then admins[i].(password := password) else admins[i])
  }

  /** `changeAdminPassword`: nothing happens unless the user exists and the current password matches. */
  function ChangePasswordIn(admins: seq<AdminUser>, username: string, req: ChangePasswordRequest): (r: bool)
    ensures r ==> exists i :: 0 <= i < |admins| && admins[i].username == username
                             && admins[i].password == req.currentPassword
    ensures !(exists i :: 0 <= i < |admins| && admins[i].username == username) ==> !r
  {
    AuthenticateAdmin(admins, LoginRequest(username, req.currentPassword)).Some?
  }

  /**
    After a password change the new password authenticates and the old one no
    longer does (unless it is the same); the table keeps its constraints.
   */
  lemma ChangePasswordEffect(admins: seq<AdminUser>, nextId: int, username: string, req: ChangePasswordRequest)
    requires AdminsValid(admins, nextId)
    requires ChangePasswordIn(admins, username, req)
    ensures var admins' := SetPassword(admins, username, req.newPassword);
      && AdminsValid(admins', nextId)
      && AuthenticateAdmin(admins', LoginRequest(username, req.newPassword)).Some?
      && (req.currentPassword != req.newPassword ==>
            AuthenticateAdmin(admins', LoginRequest(username, req.currentPassword)).None?)
  {
    var admins' := SetPassword(admins, username, req.newPassword);
    assert forall i :: 0 <= i < |admins| ==> admins'[i].id == admins[i].id && admins'[i].username == admins[i].username;
    assert DistinctBy(admins', UsernameOf) by {
      forall i, j | 0 <= i < j < |admins'| ensures admins'[i].username != admins'[j].username {
        assert admins'[i].username == admins[i].username && admins'[j].username == admins[j].username;
      }
    }
    assert DistinctBy(admins', AdminIdOf) by {
      forall i, j | 0 <= i < j < |admins'| ensures admins'[i].id != admins'[j].id {
        assert admins'[i].id == admins[i].id && admins'[j].id == admins[j].id;
      }
    }
    AuthenticateIff(admins, nextId, LoginRequest(username, req.currentPassword));
    var k :| 0 <= k < |admins| && admins[k].username == username && admins[k].password == req.currentPassword;
    assert admins'[k].username == username && admins'[k].password == req.newPassword;
    AuthenticateIff(admins', nextId, LoginRequest(username, req.newPassword));
    AuthenticateIff(admins', nextId, LoginRequest(username, req.currentPassword));
  }

  // ---------------------------------------------------------------------------
  // The store

  /** The constraints of all three tables together. */
  predicate TablesValid(rows: seq<Business>, txs: seq<DocumentTransaction>, admins: seq<AdminUser>,
                        nextB: int, nextT: int, nextA: int) {
    && BusinessesValid(rows, nextB)
    && TransactionsValid(txs, rows, nextT)
    && AdminsValid(admins, nextA)
  }

  /** A successful update keeps the constraints of all three tables. */
  lemma UpdateKeepsTablesValid(rows: seq<Business>, txs: seq<DocumentTransaction>, admins: seq<AdminUser>,
                               nextB: int, nextT: int, nextA: int, u: UpdateBusiness)
    requires TablesValid(rows, txs, admins, nextB, nextT, nextA)
    requires UpdateIn(rows, u).Success? && UpdateIn(rows, u).value.Some?
    ensures TablesValid(ReplaceRow(rows, UpdateIn(rows, u).value.value), txs, admins, nextB, nextT, nextA)
  {
    var b' := UpdateIn(rows, u).value.value;
    UpdateKeepsValid(rows, nextB, u);
    var rows' := ReplaceRow(rows, b');
    forall id | GetBusinessById(rows, id).Some? ensures GetBusinessById(rows', id).Some? {
      var k :| 0 <= k < |rows| && rows[k].id == id;
      assert rows'[k].id == id;
    }
    TransactionsValidAfterBusinessWrite(txs, rows, rows', nextT);
  }

  class DatabaseStorage {
    var businesses: seq<Business>
    var transactions: seq<DocumentTransaction>
    var admins: seq<AdminUser>
    var nextBusinessId: int
    var nextTransactionId: int
    var nextAdminId: int

    ghost predicate Valid()
      reads this
    {
      TablesValid(businesses, transactions, admins, nextBusinessId, nextTransactionId, nextAdminId)
    }

    /** An empty database; `serial` ids start at 1. */
    constructor ()
      ensures Valid()
      ensures businesses == [] && transactions == [] && admins == []
      ensures nextBusinessId == 1 && nextTransactionId == 1 && nextAdminId == 1
    {
      businesses, transactions, admins := [], [], [];
      nextBusinessId, nextTransactionId, nextAdminId := 1, 1, 1;
    }

    method CreateBusiness(x: InsertBusiness, now: int) returns (r: Result<Business, StoreError>)
      requires Valid()
      modifies this
      ensures Valid()
      ensures r == CreateBusinessIn(old(businesses), x, old(nextBusinessId), now)
      ensures businesses == if r.Success? then old(businesses) + [r.value] else old(businesses)
      ensures nextBusinessId == if r.Success? then old(nextBusinessId) + 1 else old(nextBusinessId)
      ensures transactions == old(transactions) && nextTransactionId == old(nextTransactionId)
      ensures admins == old(admins) && nextAdminId == old(nextAdminId)
    {
      r := CreateBusinessIn(businesses, x, nextBusinessId, now);
      if r.Success? {
        CreateKeepsValid(businesses, x, nextBusinessId, now);
        var rows' := businesses + [r.value];
        forall id | GetBusinessById(businesses, id).Some? ensures GetBusinessById(rows', id).Some? {
          CreateThenGet(businesses, x, nextBusinessId, now, id);
        }
        TransactionsValidAfterBusinessWrite(transactions, businesses, rows', nextTransactionId);
        businesses := rows';
        nextBusinessId := nextBusinessId + 1;
      }
    }

    method UpdateBusiness(u: UpdateBusiness) returns (r: Result<Option<Business>, StoreError>)
      requires Valid()
      modifies this
      ensures Valid()
      ensures r == UpdateIn(old(businesses), u)
      ensures businesses == if r.Success? && r.value.Some? then ReplaceRow(old(businesses), r.value.value)
                            else old(businesses)
      ensures nextBusinessId == old(nextBusinessId)
      ensures transactions == old(transactions) && nextTransactionId == old(nextTransactionId)
      ensures admins == old(admins) && nextAdminId == old(nextAdminId)
    {
      r := UpdateIn(businesses, u);
      if r.Success? && r.value.Some? {
        UpdateKeepsTablesValid(businesses, transactions, admins, nextBusinessId, nextTransactionId, nextAdminId, u);
        businesses := ReplaceRow(businesses, r.value.value);
      }
    }

    /** `deleteBusiness`, with the cascade to the business's transactions. */
    method DeleteBusiness(id: int) returns (removed: bool)
      requires Valid()
      modifies this
      ensures Valid()
      ensures removed <==> GetBusinessById(old(businesses), id).Some?
      ensures businesses == WithoutBusiness(old(businesses), id)
      ensures transactions == WithoutTransactionsOf(old(transactions), id)
      ensures nextBusinessId == old(nextBusinessId) && nextTransactionId == old(nextTransactionId)
      ensures admins == old(admins) && nextAdminId == old(nextAdminId)
    {
      var rows, txs := businesses, transactions;
      DeleteRemoves(rows, id);
      DeleteCascadeKeepsValid(rows, txs, admins, nextBusinessId, nextTransactionId, nextAdminId, id);
      businesses, transactions := WithoutBusiness(rows, id), WithoutTransactionsOf(txs, id);
      removed := |businesses| < |rows|;
    }

    method CreateDocumentTransaction(x: InsertDocumentTransaction, now: int, dateOf: string -> Option<int>)
      returns (r: Result<DocumentTransaction, StoreError>)
      requires Valid()
      modifies this
      ensures Valid()
      ensures r == CreateTransactionIn(old(businesses), x, old(nextTransactionId), now, dateOf)
      ensures transactions == if r.Success? then old(transactions) + [r.value] else old(transactions)
      ensures nextTransactionId == if r.Success? then old(nextTransactionId) + 1 else old(nextTransactionId)
      ensures businesses == old(businesses) && nextBusinessId == old(nextBusinessId)
      ensures admins == old(admins) && nextAdminId == old(nextAdminId)
    {
      r := CreateTransactionIn(businesses, x, nextTransactionId, now, dateOf);
      if r.Success? {
        CreateTransactionKeepsValid(transactions, businesses, x, nextTransactionId, now, dateOf);
        transactions := transactions + [r.value];
        nextTransactionId := nextTransactionId + 1;
      }
    }

    method DeleteDocumentTransaction(id: int) returns (removed: bool)
      requires Valid()
      modifies this
      ensures Valid()
      ensures removed <==> exists i :: 0 <= i < |old(transactions)| && old(transactions)[i].id == id
      ensures transactions == WithoutTransaction(old(transactions), id)
      ensures businesses == old(businesses) && nextBusinessId == old(nextBusinessId)
      ensures nextTransactionId == old(nextTransactionId)
      ensures admins == old(admins) && nextAdminId == old(nextAdminId)
    {
      var txs' := WithoutTransaction(transactions, id);
      DeleteTransactionRemoves(transactions, id);
      FilterTransactionsKeepsValid(transactions, businesses, nextTransactionId, (t: DocumentTransaction) => t.id != id);
      removed := |txs'| < |transactions|;
      transactions := txs';
    }

    method CreateAdminUser(x: InsertAdminUser, now: int) returns (r: Result<AdminUser, StoreError>)
      requires Valid()
      modifies this
      ensures Valid()
      ensures r == CreateAdminIn(old(admins), x, old(nextAdminId), now)
      ensures admins == if r.Success? then old(admins) + [r.value] else old(admins)
      ensures nextAdminId == if r.Success? then old(nextAdminId) + 1 else old(nextAdminId)
      ensures businesses == old(businesses) && nextBusinessId == old(nextBusinessId)
      ensures transactions == old(transactions) && nextTransactionId == old(nextTransactionId)
    {
      r := CreateAdminIn(admins, x, nextAdminId, now);
      if r.Success? {
        CreateAdminKeepsValid(admins, x, nextAdminId, now);
        admins := admins + [r.value];
        nextAdminId := nextAdminId + 1;
      }
    }

    /** `changeAdminPassword`: `false` and no change unless the current password is right. */
    method ChangeAdminPassword(username: string, req: ChangePasswordRequest) returns (changed: bool)
      requires Valid()
      modifies this
      ensures Valid()
      ensures changed == ChangePasswordIn(old(admins), username, req)
      ensures admins == if changed then SetPassword(old(admins), username, req.newPassword) else old(admins)
      ensures nextAdminId == old(nextAdminId)
      ensures businesses == old(businesses) && nextBusinessId == old(nextBusinessId)
      ensures transactions == old(transactions) && nextTransactionId == old(nextTransactionId)
    {
      changed := ChangePasswordIn(admins, username, req);
      if changed {
        ChangePasswordEffect(admins, nextAdminId, username, req);
        admins := SetPassword(admins, username, req.newPassword);
      }
    }
  }
}
