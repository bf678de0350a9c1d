/** `POST /api/orders/create` (app/api/orders/create/route.ts): a chain of
    guards over the request, the caller and the book, then one pending row in
    `authorship_purchases`. The book's counter is only read. */
module OrderIntake {
  import opened JsValues
  import opened Tables
  import opened Http

  /** What the handler gets from outside the request body: the signed-in
      user's id, whether the book query fails, the `randomUUID()` it draws,
      the id the database gives the new row, and whether the insert fails. */
  datatype IntakeEnv = IntakeEnv(
    user: Option<string>,
    bookQueryFails: bool,
    merchantTransactionId: string,
    newRowId: string,
    insertFails: bool)

  datatype IntakeOutcome = IntakeOutcome(db: Db, reply: Reply)

  /** `!bookSlug || !count || !email || !phone` is false. */
  predicate FieldsPresent(v: JsValue) {
    Truthy(Get(v, "bookSlug")) && Truthy(Get(v, "count")) && Truthy(Get(v, "email")) && Truthy(Get(v, "phone"))
  }

  /** `Number(count)` passes `Number.isFinite(positions) && positions > 0`. */
  predicate ValidPositions(n: JsNumber) {
    n.Finite? && n.r > 0.0
  }

  /** The row the handler inserts for `book`. */
  function PendingRow(v: JsValue, env: IntakeEnv, book: Book, positions: real): Purchase
    requires env.user.Some?
  {
    Purchase(
      env.newRowId, env.user.value, book.id, positions,
      book.pricePerPosition * positions, Pending,
      Str(env.merchantTransactionId),
      Get(v, "phone"), Or(Get(v, "bio"), Null), Or(Get(v, "imageUrl"), Null))
  }

  /** The success body `{ amount, merchantTransactionId }`. */
  function CreatedBody(amount: real, mtid: string): JsValue {
    Obj([("amount", Num(amount)), ("merchantTransactionId", Str(mtid))])
  }

  /** The handler, guard by guard in the order of the source. */
  function Intake(db: Db, body: RequestBody, env: IntakeEnv): IntakeOutcome {
    if body.Unparseable? || IsNullish(body.value) then
      // `req.json()` threw, or destructuring a null body threw
      IntakeOutcome(db, Caught("Server error"))
    else
      var v := body.value;
      if !FieldsPresent(v) then IntakeOutcome(db, Json(400, ErrorBody("Missing fields")))
      else if env.user.None? then IntakeOutcome(db, Json(401, ErrorBody("Not authenticated")))
      else
        var found := BookBySlug(db.books, Get(v, "bookSlug"));
        if env.bookQueryFails || found.ManyRows? then IntakeOutcome(db, DbFailed(500))
        else if found.NoRow? then IntakeOutcome(db, Json(404, ErrorBody("Book not found")))
        else Admit(db, v, env, db.books[found.index])
  }

  /** The guards after the book is found, and the insert. */
  function Admit(db: Db, v: JsValue, env: IntakeEnv, book: Book): IntakeOutcome
    requires env.user.Some?
  {
    var positions := ToNumber(Get(v, "count"));
    if !ValidPositions(positions) then
      IntakeOutcome(db, Json(400, ErrorBody("Invalid positions requested")))
    else if book.availablePositions < positions.r then
      IntakeOutcome(db, Json(400, ErrorBody("Not enough positions available")))
    else if env.insertFails || HasPurchaseId(db.purchases, env.newRowId) then
      IntakeOutcome(db, DbFailed(500))
    else
      var row := PendingRow(v, env, book, positions.r);
      IntakeOutcome(
        db.(purchases := db.purchases + [row]),
        Json(200, CreatedBody(row.totalAmount, env.merchantTransactionId)))
  }

  /** The reply is the created body exactly when a row was appended. */
  predicate Accepted(o: IntakeOutcome) {
    o.reply.Json? && o.reply.status == 200
  }

  // ---------------------------------------------------------------------
  // Properties

  /** Intake never writes `upcoming_books`: whatever happens, every book,
      and so every available-positions counter, is as it was. */
  lemma IntakeNeverReserves(db: Db, body: RequestBody, env: IntakeEnv)
    ensures Intake(db, body, env).db.books == db.books
  {
  }

  /** The purchases table either stays as it was (every rejection) or gains
      exactly one row at the end (acceptance). */
  lemma IntakeAppendsAtMostOne(db: Db, body: RequestBody, env: IntakeEnv)
    ensures var o := Intake(db, body, env);
      if Accepted(o) then |o.db.purchases| == |db.purchases| + 1 && o.db.purchases[..|db.purchases|] == db.purchases
      else o.db == db
  {
    var o := Intake(db, body, env);
    if Accepted(o) {
      assert o.db.purchases[..|db.purchases|] == db.purchases;
    }
  }

  /** Missing fields are reported before the caller or the book is looked at:
      the reply does not depend on the user or on the tables. */
  lemma MissingFieldsFirst(db: Db, v: JsValue, env: IntakeEnv)
    requires !IsNullish(v) && !FieldsPresent(v)
    ensures Intake(db, Parsed(v), env) == IntakeOutcome(db, Json(400, ErrorBody("Missing fields")))
  {
  }

  /** An unauthenticated caller gets 401 and nothing is inserted, whatever
      the book and the count. */
  lemma UnauthenticatedRejected(db: Db, v: JsValue, env: IntakeEnv)
    requires !IsNullish(v) && FieldsPresent(v) && env.user.None?
    ensures Intake(db, Parsed(v), env) == IntakeOutcome(db, Json(401, ErrorBody("Not authenticated")))
  {
  }

  /** An unknown slug gets 404 and nothing is inserted. */
  lemma UnknownSlugRejected(db: Db, v: JsValue, env: IntakeEnv)
    requires !IsNullish(v) && FieldsPresent(v) && env.user.Some? && !env.bookQueryFails
    requires forall i :: 0 <= i < |db.books| ==> db.books[i].slug != Get(v, "bookSlug")
    ensures Intake(db, Parsed(v), env) == IntakeOutcome(db, Json(404, ErrorBody("Book not found")))
  {
  }

  /** Two books that differ at most in their status. */
  predicate SameButStatus(a: Book, b: Book) {
    a == b.(status := a.status)
  }

  /** The lookup does not filter on the book's status: two stores that
      differ only in the books' statuses give the same reply. */
  lemma LookupIgnoresStatus(db: Db, db2: Db, v: JsValue, env: IntakeEnv)
    requires db2.purchases == db.purchases && |db2.books| == |db.books|
    requires forall i :: 0 <= i < |db.books| ==> SameButStatus(db2.books[i], db.books[i])
    ensures Intake(db2, Parsed(v), env).reply == Intake(db, Parsed(v), env).reply
  {
    var slug := Get(v, "bookSlug");
    SlugMatchesSameSlugs(db.books, db2.books, slug);
    var found := BookBySlug(db.books, slug);
    assert BookBySlug(db2.books, slug) == found;
    if !IsNullish(v) && FieldsPresent(v) && env.user.Some? && !env.bookQueryFails && found.OneRow? {
      AdmitIgnoresStatus(db, db2, v, env, db.books[found.index], db2.books[found.index]);
    }
  }

  lemma AdmitIgnoresStatus(db: Db, db2: Db, v: JsValue, env: IntakeEnv, b: Book, b2: Book)
    requires env.user.Some? && db2.purchases == db.purchases && SameButStatus(b2, b)
    ensures Admit(db2, v, env, b2).reply == Admit(db, v, env, b).reply
  {
    assert b2.id == b.id && b2.availablePositions == b.availablePositions && b2.pricePerPosition == b.pricePerPosition;
    var positions := ToNumber(Get(v, "count"));
    if ValidPositions(positions) && b.availablePositions >= positions.r && !env.insertFails && !HasPurchaseId(db.purchases, env.newRowId) {
      assert PendingRow(v, env, b2, positions.r).totalAmount == PendingRow(v, env, b, positions.r).totalAmount;
    }
  }

  lemma {:induction false} SlugMatchesSameSlugs(a: seq<Book>, b: seq<Book>, slug: JsValue)
    requires |a| == |b|
    requires forall i :: 0 <= i < |a| ==> SameButStatus(b[i], a[i])
    ensures SlugMatches(a, slug) == SlugMatches(b, slug)
  {
    if |a| > 0 {
      SlugMatchesSameSlugs(a[..|a| - 1], b[..|b| - 1], slug);
    }
  }

  /** A count that `Number` cannot turn into a positive finite number is
      rejected with 400, and nothing is inserted. */
  lemma InvalidPositionsRejected(db: Db, v: JsValue, env: IntakeEnv)
    requires !IsNullish(v) && FieldsPresent(v) && env.user.Some? && !env.bookQueryFails
    requires BookBySlug(db.books, Get(v, "bookSlug")).OneRow?
    requires !ValidPositions(ToNumber(Get(v, "count")))
    ensures Intake(db, Parsed(v), env) == IntakeOutcome(db, Json(400, ErrorBody("Invalid positions requested")))
  {
  }

  /** The availability test: more positions than available is rejected with
      400; as many as available (the boundary) goes on to the insert. */
  lemma AvailabilityBoundary(db: Db, v: JsValue, env: IntakeEnv)
    requires !IsNullish(v) && FieldsPresent(v) && env.user.Some? && !env.bookQueryFails
    requires BookBySlug(db.books, Get(v, "bookSlug")).OneRow?
    requires ValidPositions(ToNumber(Get(v, "count")))
    ensures var book := db.books[BookBySlug(db.books, Get(v, "bookSlug")).index];
      var o := Intake(db, Parsed(v), env);
      var tooMany := book.availablePositions < ToNumber(Get(v, "count")).r;
      tooMany <==> o == IntakeOutcome(db, Json(400, ErrorBody("Not enough positions available")))
  {
  }

  /** When every guard passes and the insert succeeds, exactly one row is
      appended: pending, for the requested (possibly fractional) positions,
      at price times positions, carrying the drawn merchant transaction id;
      the reply repeats that row's amount and transaction id. */
  lemma AcceptedOrder(db: Db, v: JsValue, env: IntakeEnv)
    requires !IsNullish(v) && FieldsPresent(v) && env.user.Some? && !env.bookQueryFails
    requires BookBySlug(db.books, Get(v, "bookSlug")).OneRow?
    requires ValidPositions(ToNumber(Get(v, "count")))
    requires db.books[BookBySlug(db.books, Get(v, "bookSlug")).index].availablePositions >= ToNumber(Get(v, "count")).r
    requires !env.insertFails && !HasPurchaseId(db.purchases, env.newRowId)
    ensures var book := db.books[BookBySlug(db.books, Get(v, "bookSlug")).index];
      var n := ToNumber(Get(v, "count")).r;
      var o := Intake(db, Parsed(v), env);
      var row := o.db.purchases[|db.purchases|];
      && o.db == db.(purchases := db.purchases + [row])
      && row.paymentStatus == Pending
      && row.positionsPurchased == n
      && row.totalAmount == book.pricePerPosition * n
      && row.upcomingBookId == book.id
      && row.userId == env.user.value
      && row.paymentId == Str(env.merchantTransactionId)
      && o.reply == Json(200, Obj([("amount", Num(row.totalAmount)), ("merchantTransactionId", row.paymentId)]))
  {
  }

  /** Intake keeps the purchase ids unique. */
  lemma IntakeKeepsIdsUnique(db: Db, body: RequestBody, env: IntakeEnv)
    requires UniquePurchaseIds(db.purchases)
    ensures UniquePurchaseIds(Intake(db, body, env).db.purchases)
  {
    var o := Intake(db, body, env);
    if Accepted(o) {
      var ps := o.db.purchases;
      assert ps[..|db.purchases|] == db.purchases;
      assert !HasPurchaseId(db.purchases, env.newRowId);
      assert ps[|db.purchases|].id == env.newRowId;
      forall i, j | 0 <= i < j < |ps| ensures ps[i].id != ps[j].id {
        if j == |db.purchases| {
          assert ps[i] == db.purchases[i];
        } else {
          assert ps[i] == db.purchases[i] && ps[j] == db.purchases[j];
        }
      }
    }
  }
}
