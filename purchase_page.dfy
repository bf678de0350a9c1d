/** The purchase page (src/pages/Purchase.tsx): which book it loads, the
    position clamp, the total, when the Pay button is enabled, and the
    two-step write of `handlePurchase`, which records a purchase as
    completed without any payment provider and without touching the
    book's counter. */
module PurchasePage {
  import opened JsValues
  import opened Tables
  import Store

  /** `Math.max(1, Math.min(available, Number.parseInt(input) || 1))`: the
      count the positions field holds after an edit. */
  function Clamp(available: real, input: string): (r: real)
    ensures r >= 1.0
    ensures available >= 1.0 ==> r <= available
  {
    var parsed := NumOr(ParseInt(input), 1.0);
    var upper := if available <= parsed.r then available else parsed.r;
    if 1.0 >= upper then 1.0 else upper
  }

  /** `book.price_per_position * purchaseData.positions` */
  function TotalAmount(book: Book, positions: real): real {
    book.pricePerPosition * positions
  }

  /** `!phoneNumber || purchasing || available_positions < positions` */
  predicate PayDisabled(phone: string, purchasing: bool, available: real, positions: real) {
    phone == "" || purchasing || available < positions
  }

  // ---------------------------------------------------------------------
  // Loading the book

  /** What the page shows after its effect: the sign-in redirect, the
      loading text forever (no `bookId` in the query), the book, or the
      failure toast with the redirect to the list. */
  datatype LoadState = RedirectToAuth | StillLoading | Loaded(book: Book) | LoadFailed

  /** Indices of the books matched by `.eq("id", id).eq("status", "active")`. */
  function ActiveIdMatches(rows: seq<Book>, id: string): (r: seq<nat>)
    ensures forall k :: 0 <= k < |r| ==> r[k] < |rows| && rows[r[k]].id == id && rows[r[k]].status == Active
    ensures forall i :: 0 <= i < |rows| && rows[i].id == id && rows[i].status == Active ==> i in r
  {
    if |rows| == 0 then []
    else
      var rest := ActiveIdMatches(rows[..|rows| - 1], id);
      if rows[|rows| - 1].id == id && rows[|rows| - 1].status == Active then rest + [|rows| - 1] else rest
  }

  /** The effect and `fetchBookDetails`: `.single()` fails unless exactly one
      row matches. */
  function LoadBook(db: Db, signedIn: bool, bookId: Option<string>, queryFails: bool): LoadState {
    if !signedIn then RedirectToAuth
    else if bookId.None? || bookId.value == "" then StillLoading
    else
      var m := ActiveIdMatches(db.books, bookId.value);
      if queryFails || |m| != 1 then LoadFailed else Loaded(db.books[m[0]])
  }

  // ---------------------------------------------------------------------
  // handlePurchase

  /** What `handlePurchase` gets from outside: the uploaded image's URL
      (`null` when there is none or the upload failed), the id the database
      gives the new row, whether the insert fails, `Date.now()`, the random
      base-36 part of the payment id, and whether the update fails. */
  datatype PurchaseEnv = PurchaseEnv(
    imageUrl: JsValue,
    newRowId: string,
    insertFails: bool,
    now: nat,
    randomPart: string,
    updateFails: bool)

  /** The positions, phone and bio the form holds. */
  datatype PurchaseData = PurchaseData(positions: real, phone: string, bio: string)

  datatype Toast = PurchaseSucceeded(positions: real) | PurchaseFailed

  /** `PAY_${Date.now()}_${random}` */
  function PaymentIdText(env: PurchaseEnv): string {
    "PAY_" + IntText(env.now) + "_" + env.randomPart
  }

  /** The row the insert writes; `payment_id` is not given, so it is null. */
  function NewRow(book: Book, user: string, data: PurchaseData, env: PurchaseEnv): Purchase {
    Purchase(env.newRowId, user, book.id, data.positions, TotalAmount(book, data.positions), Pending,
             Null, Str(data.phone), Str(data.bio), env.imageUrl)
  }

  /** The patch the second step writes. */
  function CompletePatch(env: PurchaseEnv): PurchasePatch {
    PurchasePatch(Completed, Some(Str(PaymentIdText(env))))
  }

  /** `handlePurchase` on the store: the tables afterwards and the toast shown
      (`None` for the early return). */
  function PurchaseFlow(db: Db, book: Option<Book>, user: Option<string>, data: PurchaseData, env: PurchaseEnv): (Db, Option<Toast>) {
    if book.None? || user.None? then (db, None)
    else if env.insertFails || HasPurchaseId(db.purchases, env.newRowId) then (db, Some(PurchaseFailed))
    else
      var inserted := db.(purchases := db.purchases + [NewRow(book.value, user.value, data, env)]);
      if env.updateFails then (inserted, Some(PurchaseFailed))
      else (inserted.(purchases := UpdatePurchases(inserted.purchases, Str(env.newRowId), CompletePatch(env))),
            Some(PurchaseSucceeded(data.positions)))
  }

  class PurchasePageState {
    var purchasing: bool
    var data: PurchaseData

    constructor()
      ensures !purchasing && data == PurchaseData(1.0, "", "")
    {
      purchasing := false;
      data := PurchaseData(1.0, "", "");
    }

    /** The positions field's `onChange`. */
    method EditPositions(available: real, input: string)
      modifies this
      ensures data == old(data).(positions := Clamp(available, input)) && purchasing == old(purchasing)
    {
      data := data.(positions := Clamp(available, input));
    }

    /** `handlePurchase`: `purchasing` is raised for the writes and lowered in
        `finally`, whatever happens; the early return leaves it alone. */
    method HandlePurchase(store: Store.Store, book: Option<Book>, user: Option<string>, env: PurchaseEnv)
      returns (toast: Option<Toast>)
      modifies this, store
      ensures (store.Snapshot(), toast) == PurchaseFlow(old(store.Snapshot()), book, user, old(data), env)
      ensures data == old(data)
      ensures purchasing == if toast.None? then old(purchasing) else false
    {
      if book.None? || user.None? {
        return None;
      }
      purchasing := true;
      if env.insertFails || HasPurchaseId(store.purchases, env.newRowId) {
        purchasing := false;
        return Some(PurchaseFailed);
      }
      store.AppendPurchase(NewRow(book.value, user.value, data, env));
      if env.updateFails {
        purchasing := false;
        return Some(PurchaseFailed);
      }
      store.PatchWhere(Str(env.newRowId), CompletePatch(env));
      purchasing := false;
      toast := Some(PurchaseSucceeded(data.positions));
    }
  }

  // ---------------------------------------------------------------------
  // Properties

  /** A whole number the user types, within 1 .. available, is kept as it
      is; anything that does not parse, or parses to 0, becomes 1 (or the
      available count when that is smaller than 1). */
  lemma ClampKeepsInRange(available: real, n: int)
    requires 1 <= n && n as real <= available
    ensures Clamp(available, IntText(n)) == n as real
  {
    ParseIntOfIntText(n);
  }

  lemma ClampFallsBackToOne(available: real, input: string)
    requires !NumTruthy(ParseInt(input))
    ensures Clamp(available, input) == 1.0
  {
  }

  /** Above the available count the clamp stops at it. */
  lemma ClampCapsAtAvailable(available: real, n: int)
    requires 1.0 <= available <= n as real
    ensures Clamp(available, IntText(n)) == available
  {
    ParseIntOfIntText(n);
  }

  /** With a clamped count, Pay is enabled exactly when there is a phone
      number, no purchase is running and at least one position is left. */
  lemma PayEnabledWithClamp(phone: string, purchasing: bool, available: real, input: string)
    ensures !PayDisabled(phone, purchasing, available, Clamp(available, input))
        <==> phone != "" && !purchasing && available >= 1.0
  {
  }

  /** The page loads only an active book with the requested id, and loads it
      whenever it is the only such row. */
  lemma OnlyActiveLoaded(db: Db, bookId: string, queryFails: bool)
    requires bookId != ""
    ensures LoadBook(db, true, Some(bookId), queryFails).Loaded? ==>
      var b := LoadBook(db, true, Some(bookId), queryFails).book;
      b.status == Active && b.id == bookId && b in db.books
  {
  }

  /** A book in any other status (an admin-created one is `published`)
      never loads. */
  lemma InactiveNeverLoaded(db: Db, bookId: string, queryFails: bool, i: nat)
    requires i < |db.books| && db.books[i].id == bookId && db.books[i].status != Active
    requires forall j :: 0 <= j < |db.books| && j != i ==> db.books[j].id != bookId
    ensures LoadBook(db, true, Some(bookId), queryFails) != Loaded(db.books[i])
  {
  }

  lemma UniqueActiveLoaded(db: Db, bookId: string, i: nat)
    requires bookId != "" && i < |db.books| && db.books[i].id == bookId && db.books[i].status == Active
    requires UniqueBookIds(db.books)
    ensures LoadBook(db, true, Some(bookId), false) == Loaded(db.books[i])
  {
    var m := ActiveIdMatches(db.books, bookId);
    assert i in m;
    ActiveMatchesAtMostOne(db.books, bookId);
  }

  /** With unique ids, at most one row matches. */
  lemma {:induction false} ActiveMatchesAtMostOne(rows: seq<Book>, id: string)
    requires UniqueBookIds(rows)
    ensures |ActiveIdMatches(rows, id)| <= 1
  {
    if |rows| > 0 {
      var init := rows[..|rows| - 1];
      ActiveMatchesAtMostOne(init, id);
      var rest := ActiveIdMatches(init, id);
      assert forall k :: 0 <= k < |rest| ==> rest[k] < |rows| - 1 && init[rest[k]] == rows[rest[k]];
      assert forall k :: 0 <= k < |rest| ==> rows[rest[k]].id != rows[|rows| - 1].id;
      assert |rest| > 0 ==> init[rest[0]].id == id;
    }
  }

  /** Without a loaded book or a signed-in user nothing happens. */
  lemma NoOpWithoutBookOrUser(db: Db, book: Option<Book>, user: Option<string>, data: PurchaseData, env: PurchaseEnv)
    requires book.None? || user.None?
    ensures PurchaseFlow(db, book, user, data, env) == (db, None)
  {
  }

  /** A failed insert skips the update: the store is as it was. */
  lemma FailedInsertSkipsUpdate(db: Db, book: Book, user: string, data: PurchaseData, env: PurchaseEnv)
    requires env.insertFails
    ensures PurchaseFlow(db, Some(book), Some(user), data, env) == (db, Some(PurchaseFailed))
  {
  }

  /** A failed update leaves the new row pending, with no payment id. */
  lemma FailedUpdateLeavesPending(db: Db, book: Book, user: string, data: PurchaseData, env: PurchaseEnv)
    requires !env.insertFails && !HasPurchaseId(db.purchases, env.newRowId) && env.updateFails
    ensures var (after, toast) := PurchaseFlow(db, Some(book), Some(user), data, env);
      && toast == Some(PurchaseFailed)
      && after.books == db.books
      && after.purchases == db.purchases + [after.purchases[|db.purchases|]]
      && after.purchases[|db.purchases|].paymentStatus == Pending
      && after.purchases[|db.purchases|].paymentId == Null
  {
  }

  /** When both writes go through, the table gains exactly one row, and it
      is already `completed`, with a `PAY_` id built from the clock and the
      random part, at the price times the positions; the earlier rows are
      untouched. */
  lemma TwoStepWrite(db: Db, book: Book, user: string, data: PurchaseData, env: PurchaseEnv)
    requires !env.insertFails && !HasPurchaseId(db.purchases, env.newRowId) && !env.updateFails
    ensures var (after, toast) := PurchaseFlow(db, Some(book), Some(user), data, env);
      var row := after.purchases[|db.purchases|];
      && toast == Some(PurchaseSucceeded(data.positions))
      && after == db.(purchases := db.purchases + [row])
      && row.id == env.newRowId && row.userId == user && row.upcomingBookId == book.id
      && row.paymentStatus == Completed
      && row.paymentId == Str("PAY_" + IntText(env.now) + "_" + env.randomPart)
      && row.positionsPurchased == data.positions
      && row.totalAmount == book.pricePerPosition * data.positions
  {
    var inserted := db.purchases + [NewRow(book, user, data, env)];
    var updated := UpdatePurchases(inserted, Str(env.newRowId), CompletePatch(env));
    forall k | 0 <= k < |db.purchases| ensures updated[k] == db.purchases[k] {
      assert inserted[k] == db.purchases[k];
      assert db.purchases[k].id != env.newRowId;
    }
    assert updated == db.purchases + [updated[|db.purchases|]];
  }

  /** `handlePurchase` never changes a book: no counter is decremented. */
  lemma NeverDecrements(db: Db, book: Option<Book>, user: Option<string>, data: PurchaseData, env: PurchaseEnv)
    ensures PurchaseFlow(db, book, user, data, env).0.books == db.books
  {
  }
}
