/** The two tables as mutable state, and the server routes that write them
    as methods that change the tables step by step. Each method is proved to
    leave exactly the store its route's function describes. */
module Store {
  import opened JsValues
  import opened Tables
  import opened Http
  import opened PhonePe
  import OrderIntake
  import CheckoutCallback
  import PaymentsCallback
  import AdminBooks

  class Store {
    var books: seq<Book>
    var purchases: seq<Purchase>

    function Snapshot(): Db
      reads this
    {
      Db(books, purchases)
    }

    constructor(db: Db)
      ensures Snapshot() == db
    {
      books := db.books;
      purchases := db.purchases;
    }

    /** `insert(row)` on `authorship_purchases`. */
    method AppendPurchase(row: Purchase)
      modifies this
      ensures books == old(books) && purchases == old(purchases) + [row]
    {
      purchases := purchases + [row];
    }

    /** `insert(row)` on `upcoming_books`. */
    method AppendBook(row: Book)
      modifies this
      ensures books == old(books) + [row] && purchases == old(purchases)
    {
      books := books + [row];
    }

    /** `update(patch).eq("id", id)`, row by row. */
    method PatchWhere(id: JsValue, patch: PurchasePatch)
      modifies this
      ensures books == old(books)
      ensures purchases == UpdatePurchases(old(purchases), id, patch)
    {
      var i := 0;
      while i < |purchases|
        invariant 0 <= i <= |purchases| == |old(purchases)|
        invariant books == old(books)
        invariant forall k :: 0 <= k < i ==>
          purchases[k] == if Str(old(purchases)[k].id) == id then ApplyPatch(old(purchases)[k], patch) else old(purchases)[k]
        invariant forall k :: i <= k < |purchases| ==> purchases[k] == old(purchases)[k]
      {
        if Str(purchases[i].id) == id {
          purchases := purchases[i := ApplyPatch(purchases[i], patch)];
        }
        i := i + 1;
      }
    }

    /** The decrement procedure on the book with id `bookId`, book by book. */
    method DecrementBook(bookId: string, n: real, dec: Decrement)
      modifies this
      ensures purchases == old(purchases)
      ensures books == ApplyDecrement(old(books), bookId, n, dec)
    {
      var i := 0;
      while i < |books|
        invariant 0 <= i <= |books| == |old(books)|
        invariant purchases == old(purchases)
        invariant forall k :: 0 <= k < i ==>
          books[k] == if old(books)[k].id == bookId
                      then old(books)[k].(availablePositions := dec(old(books)[k].availablePositions, n))
                      else old(books)[k]
        invariant forall k :: i <= k < |books| ==> books[k] == old(books)[k]
      {
        if books[i].id == bookId {
          books := books[i := books[i].(availablePositions := dec(books[i].availablePositions, n))];
        }
        i := i + 1;
      }
    }

    /** `POST /api/orders/create`. */
    method CreateOrder(body: RequestBody, env: OrderIntake.IntakeEnv) returns (reply: Reply)
      modifies this
      ensures OrderIntake.IntakeOutcome(Snapshot(), reply) == OrderIntake.Intake(old(Snapshot()), body, env)
    {
      if body.Unparseable? || IsNullish(body.value) {
        return Caught("Server error");
      }
      var v := body.value;
      if !OrderIntake.FieldsPresent(v) {
        return Json(400, ErrorBody("Missing fields"));
      }
      if env.user.None? {
        return Json(401, ErrorBody("Not authenticated"));
      }
      var found := BookBySlug(books, Get(v, "bookSlug"));
      if env.bookQueryFails || found.ManyRows? {
        return DbFailed(500);
      }
      if found.NoRow? {
        return Json(404, ErrorBody("Book not found"));
      }
      var book := books[found.index];
      var positions := ToNumber(Get(v, "count"));
      if !OrderIntake.ValidPositions(positions) {
        return Json(400, ErrorBody("Invalid positions requested"));
      }
      if book.availablePositions < positions.r {
        return Json(400, ErrorBody("Not enough positions available"));
      }
      if env.insertFails || HasPurchaseId(purchases, env.newRowId) {
        return DbFailed(500);
      }
      var row := OrderIntake.PendingRow(v, env, book, positions.r);
      AppendPurchase(row);
      reply := Json(200, OrderIntake.CreatedBody(row.totalAmount, env.merchantTransactionId));
    }

    /** The checkout callback. */
    method SettleCheckout(mtid: Option<string>, env: Env, sha256hex: string -> string,
                          answer: FetchResult, faults: CheckoutCallback.Faults, dec: Decrement)
      returns (request: Option<Request>, redirect: CheckoutCallback.Redirect)
      modifies this
      ensures CheckoutCallback.Outcome(Snapshot(), request, redirect)
           == CheckoutCallback.HandleCallback(old(Snapshot()), mtid, env, sha256hex, answer, faults, dec)
    {
      if mtid.None? || mtid.value == "" || !CheckoutCallback.CallbackEnvReady(env) {
        return None, CheckoutCallback.ErrorRedirect;
      }
      request := Some(CheckoutCallback.StatusRequest(env, mtid.value, sha256hex));
      if !HasJson(answer) {
        redirect := CheckoutCallback.ErrorRedirect;
        return;
      }
      var status := CheckoutCallback.Verdict(answer.json.value);
      redirect := CheckoutCallback.Redirect(status, mtid);
      var found := PurchaseByPaymentId(purchases, mtid.value);
      if faults.lookupFails || !found.OneRow? {
        return;
      }
      var p := purchases[found.index];
      if !faults.updateFails {
        PatchWhere(Str(p.id), PurchasePatch(status, None));
      }
      if status == Success && !faults.decrementFails {
        DecrementBook(p.upcomingBookId, p.positionsPurchased, dec);
      }
    }

    /** The payments webhook. */
    method SettlePayment(body: RequestBody, faults: PaymentsCallback.Faults, dec: Decrement) returns (reply: Reply)
      modifies this
      ensures PaymentsCallback.Outcome(Snapshot(), reply) == PaymentsCallback.HandlePayment(old(Snapshot()), body, faults, dec)
    {
      var b := PaymentsCallback.EffectiveBody(body);
      var orderId := PaymentsCallback.OrderId(b);
      if !Truthy(orderId) {
        return Json(400, PaymentsCallback.OkReply(false));
      }
      var status := PaymentsCallback.SettledStatus(b);
      var m := PurchaseIdMatches(purchases, orderId);
      reply := Json(200, PaymentsCallback.OkReply(true));
      if faults.updateFails || |m| != 1 {
        return;
      }
      var p := ApplyPatch(purchases[m[0]], PurchasePatch(status, Some(PaymentsCallback.PaymentIdOf(b))));
      purchases := purchases[m[0] := p];
      if status == Success && !faults.decrementFails {
        DecrementBook(p.upcomingBookId, p.positionsPurchased, dec);
      }
    }

    /** `POST /api/admin/books`. */
    method CreateBook(body: RequestBody, env: AdminBooks.CreateEnv) returns (reply: AdminBooks.AdminReply)
      modifies this
      ensures AdminBooks.Outcome(Snapshot(), reply) == AdminBooks.CreateBook(old(Snapshot()), body, env)
    {
      if body.Unparseable? {
        return AdminBooks.Plain(Caught("Server error"));
      }
      var v := AdminBooks.CreateFields(body.value);
      if !AdminBooks.RequiredPresent(v) {
        return AdminBooks.Plain(Json(400, ErrorBody("Missing required fields")));
      }
      if !AdminBooks.TotalPositions(v).Finite? || !AdminBooks.AvailablePositions(v).Finite?
         || env.insertFails || HasBookId(books, env.newId) {
        return AdminBooks.Plain(DbFailed(403));
      }
      var book := AdminBooks.NewBook(v, env);
      AppendBook(book);
      reply := AdminBooks.Created(book);
    }

    /** `PATCH /api/admin/books`: the matched row is updated in place; an
        update with no typed field touches no row. */
    method PatchBook(body: RequestBody, updateFails: bool) returns (reply: AdminBooks.AdminReply)
      modifies this
      ensures AdminBooks.Outcome(Snapshot(), reply) == AdminBooks.PatchBook(old(Snapshot()), body, updateFails)
    {
      if body.Unparseable? || IsNullish(body.value) {
        return AdminBooks.Plain(Caught("Server error"));
      }
      var v := body.value;
      var id := Get(v, "id");
      if !Truthy(id) {
        return AdminBooks.Plain(Json(400, ErrorBody("Missing id")));
      }
      if updateFails {
        return AdminBooks.Plain(DbFailed(403));
      }
      if !AdminBooks.AnyTypedField(v) {
        return AdminBooks.Patched(None);
      }
      var m := BookIdMatches(books, id);
      if |m| > 1 {
        return AdminBooks.Plain(DbFailed(403));
      }
      if |m| == 0 {
        return AdminBooks.Patched(None);
      }
      var b := AdminBooks.PatchFields(books[m[0]], v);
      books := books[m[0] := b];
      reply := AdminBooks.Patched(Some(b));
    }
  }
}
