/** The two tables the purchase flow works on (`upcoming_books` and
    `authorship_purchases`), the row-matching semantics of the query builder
    the handlers use, and the reply shapes of the route handlers. */
module Tables {
  import opened JsValues

  datatype Option<T> = None | Some(value: T)

  /** A row of `upcoming_books`. Text columns that an admin request fills are
      kept as the JSON value that was sent; numeric columns are JavaScript
      numbers. `createdAt` stands for the `created_at` timestamp. */
  datatype Book = Book(
    id: string,
    slug: JsValue,
    title: JsValue,
    description: JsValue,
    genre: JsValue,
    coverImageUrl: JsValue,
    publicationDate: JsValue,
    totalAuthorPositions: real,
    availablePositions: real,
    pricePerPosition: real,
    status: string,
    createdAt: int)

  /** A row of `authorship_purchases`. `paymentId` holds the merchant
      transaction id between intake and settlement and whatever the payments
      callback writes afterwards. */
  datatype Purchase = Purchase(
    id: string,
    userId: string,
    upcomingBookId: string,
    positionsPurchased: real,
    totalAmount: real,
    paymentStatus: string,
    paymentId: JsValue,
    phoneNumber: JsValue,
    bio: JsValue,
    profileImageUrl: JsValue)

  /** The store: both tables, in insertion order. */
  datatype Db = Db(books: seq<Book>, purchases: seq<Purchase>)

  // Status words as the handlers write or test them.
  const Pending := "pending"
  const Success := "success"
  const Failed := "failed"
  const Completed := "completed"
  const Published := "published"
  const Active := "active"

  /** Result of `.maybeSingle()`: no row, exactly one row (its index), or an
      error because several rows matched. */
  datatype Single = NoRow | OneRow(index: nat) | ManyRows

  /** Indices of the books whose slug equals `slug`, in table order. */
  function SlugMatches(rows: seq<Book>, slug: JsValue): (r: seq<nat>)
    ensures forall k :: 0 <= k < |r| ==> r[k] < |rows| && rows[r[k]].slug == slug
    ensures forall i :: 0 <= i < |rows| && rows[i].slug == slug ==> i in r
  {
    if |rows| == 0 then []
    else
      var rest := SlugMatches(rows[..|rows| - 1], slug);
      if rows[|rows| - 1].slug == slug then rest + [|rows| - 1] else rest
  }

  /** Indices of the purchases whose `payment_id` equals `v`, in table order. */
  function PaymentIdMatches(rows: seq<Purchase>, v: JsValue): (r: seq<nat>)
    ensures forall k :: 0 <= k < |r| ==> r[k] < |rows| && rows[r[k]].paymentId == v
    ensures forall i :: 0 <= i < |rows| && rows[i].paymentId == v ==> i in r
  {
    if |rows| == 0 then []
    else
      var rest := PaymentIdMatches(rows[..|rows| - 1], v);
      if rows[|rows| - 1].paymentId == v then rest + [|rows| - 1] else rest
  }

  /** Indices of the purchases matched by `.eq("id", v)`. */
  function PurchaseIdMatches(rows: seq<Purchase>, v: JsValue): (r: seq<nat>)
    ensures forall k :: 0 <= k < |r| ==> r[k] < |rows| && Str(rows[r[k]].id) == v
    ensures forall i :: 0 <= i < |rows| && Str(rows[i].id) == v ==> i in r
  {
    if |rows| == 0 then []
    else
      var rest := PurchaseIdMatches(rows[..|rows| - 1], v);
      if Str(rows[|rows| - 1].id) == v then rest + [|rows| - 1] else rest
  }

  /** Indices of the books matched by `.eq("id", v)`. */
  function BookIdMatches(rows: seq<Book>, v: JsValue): (r: seq<nat>)
    ensures forall k :: 0 <= k < |r| ==> r[k] < |rows| && Str(rows[r[k]].id) == v
    ensures forall i :: 0 <= i < |rows| && Str(rows[i].id) == v ==> i in r
  {
    if |rows| == 0 then []
    else
      var rest := BookIdMatches(rows[..|rows| - 1], v);
      if Str(rows[|rows| - 1].id) == v then rest + [|rows| - 1] else rest
  }

  function AsSingle(matches: seq<nat>): Single {
    if |matches| == 0 then NoRow
    else if |matches| == 1 then OneRow(matches[0])
    else ManyRows
  }

  /** `.eq("slug", v).maybeSingle()` on `upcoming_books`. */
  function BookBySlug(books: seq<Book>, slug: JsValue): (r: Single)
    ensures r.OneRow? ==> r.index < |books| && books[r.index].slug == slug
    ensures r.NoRow? <==> forall i :: 0 <= i < |books| ==> books[i].slug != slug
  {
    var m := SlugMatches(books, slug);
    assert |m| > 0 ==> m[0] < |books| && books[m[0]].slug == slug;
    AsSingle(m)
  }

  /** `.eq("payment_id", mtid).maybeSingle()` on `authorship_purchases`. */
  function PurchaseByPaymentId(purchases: seq<Purchase>, mtid: string): (r: Single)
    ensures r.OneRow? ==> r.index < |purchases| && purchases[r.index].paymentId == Str(mtid)
    ensures r.NoRow? <==> forall i :: 0 <= i < |purchases| ==> purchases[i].paymentId != Str(mtid)
  {
    var m := PaymentIdMatches(purchases, Str(mtid));
    assert |m| > 0 ==> m[0] < |purchases| && purchases[m[0]].paymentId == Str(mtid);
    AsSingle(m)
  }

  /** Ids are unique within a table (the primary key). */
  predicate UniqueBookIds(books: seq<Book>) {
    forall i, j :: 0 <= i < j < |books| ==> books[i].id != books[j].id
  }

  predicate UniquePurchaseIds(purchases: seq<Purchase>) {
    forall i, j :: 0 <= i < j < |purchases| ==> purchases[i].id != purchases[j].id
  }

  predicate HasBookId(books: seq<Book>, id: string) {
    exists i :: 0 <= i < |books| && books[i].id == id
  }

  predicate HasPurchaseId(purchases: seq<Purchase>, id: string) {
    exists i :: 0 <= i < |purchases| && purchases[i].id == id
  }

  /** The `decrement_available_positions(p_book_id, p_positions)` procedure.
      Its SQL is not part of the repository, so the new counter is an
      arbitrary function of the old counter and the count: no clamping, no
      atomicity is assumed. */
  type Decrement = (real, real) -> real

  /** The procedure applied to the book with id `bookId`; every other book,
      and every other column, is left as it was. */
  function ApplyDecrement(books: seq<Book>, bookId: string, n: real, dec: Decrement): (r: seq<Book>)
    ensures |r| == |books|
    ensures forall i :: 0 <= i < |books| ==> r[i].(availablePositions := books[i].availablePositions) == books[i]
    ensures forall i :: 0 <= i < |books| && books[i].id != bookId ==> r[i] == books[i]
    ensures forall i :: 0 <= i < |books| && books[i].id == bookId ==>
      r[i].availablePositions == dec(books[i].availablePositions, n)
  {
    seq(|books|, i requires 0 <= i < |books| =>
      if books[i].id == bookId
      then books[i].(availablePositions := dec(books[i].availablePositions, n))
      else books[i])
  }

  /** The columns an update of `authorship_purchases` sets: always the
      status, and the payment id when given. */
  datatype PurchasePatch = PurchasePatch(status: string, paymentId: Option<JsValue>)

  function ApplyPatch(p: Purchase, patch: PurchasePatch): (r: Purchase)
    ensures r.paymentStatus == patch.status
    ensures r.paymentId == if patch.paymentId.Some? then patch.paymentId.value else p.paymentId
    ensures r.(paymentStatus := p.paymentStatus, paymentId := p.paymentId) == p
  {
    p.(paymentStatus := patch.status,
       paymentId := if patch.paymentId.Some? then patch.paymentId.value else p.paymentId)
  }

  /** `update(patch).eq("id", id)` on `authorship_purchases`: every row whose
      id equals `id` is patched, the others are left as they were. */
  function UpdatePurchases(purchases: seq<Purchase>, id: JsValue, patch: PurchasePatch): (r: seq<Purchase>)
    ensures |r| == |purchases|
    ensures forall i :: 0 <= i < |purchases| ==>
      r[i].(paymentStatus := purchases[i].paymentStatus, paymentId := purchases[i].paymentId) == purchases[i]
    ensures forall i :: 0 <= i < |purchases| && Str(purchases[i].id) != id ==> r[i] == purchases[i]
    ensures forall i :: 0 <= i < |purchases| && Str(purchases[i].id) == id ==>
      r[i].paymentStatus == patch.status
      && r[i].paymentId == if patch.paymentId.Some? then patch.paymentId.value else purchases[i].paymentId
  {
    seq(|purchases|, i requires 0 <= i < |purchases| =>
      if Str(purchases[i].id) == id then ApplyPatch(purchases[i], patch) else purchases[i])
  }

  /** Writing the same patch twice leaves the table as writing it once. */
  lemma UpdatePurchasesIdempotent(purchases: seq<Purchase>, id: JsValue, patch: PurchasePatch)
    ensures UpdatePurchases(UpdatePurchases(purchases, id, patch), id, patch) == UpdatePurchases(purchases, id, patch)
  {
    var once := UpdatePurchases(purchases, id, patch);
    var twice := UpdatePurchases(once, id, patch);
    forall i | 0 <= i < |purchases| ensures twice[i] == once[i] {
      assert once[i].id == purchases[i].id;
    }
  }

  /** A decrement aimed at a book id no row carries leaves every book as it
      was. */
  lemma DecrementOfUnknownBook(books: seq<Book>, bookId: string, n: real, dec: Decrement)
    requires !HasBookId(books, bookId)
    ensures ApplyDecrement(books, bookId, n, dec) == books
  {
    var r := ApplyDecrement(books, bookId, n, dec);
    forall i | 0 <= i < |books| ensures r[i] == books[i] {
      assert books[i].id != bookId;
    }
  }

}

/** What a route handler answers. */
module Http {
  import opened JsValues

  /** `NextResponse.json(body, { status })`; a database error passed on as
      `{ error: error.message }` with the given status (the message is the
      database's); or the answer of a handler's `catch` block, status 500 with
      `{ error: e?.message || fallback }` (the message is the runtime's). A
      field whose value is `Undefined` is left out when the body is written. */
  datatype Reply = Json(status: int, body: JsValue) | DbFailed(status: int) | Caught(fallback: string)

  function ErrorBody(msg: string): JsValue {
    Obj([("error", Str(msg))])
  }

  /** What `await req.json()` produced: a value, or a thrown parse error. */
  datatype RequestBody = Parsed(value: JsValue) | Unparseable
}
