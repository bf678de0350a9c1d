/** Consequences of running the handlers one after another on the same
    store: what a repeated settlement does, how two orders can both be
    accepted against the same stock, where the status words do not line
    up, and which key each settlement handler matches on. */
module Flows {
  import opened JsValues
  import opened Tables
  import opened PhonePe
  import opened Http
  import OrderIntake
  import CheckoutCallback
  import PaymentsCallback
  import AdminBooks
  import PurchasePage
  import Dashboard
  import ResultPage

  // ---------------------------------------------------------------------
  // Replayed settlements

  /** The checkout callback run twice for the same successful transaction
      finds the same purchase both times and decrements its book twice:
      nothing records that the purchase was already settled. */
  lemma ReplayedCheckoutDecrementsTwice(db: Db, mtid: string, env: Env, sha256hex: string -> string,
                                        data: JsValue, ok: bool, dec: Decrement)
    requires mtid != "" && CheckoutCallback.CallbackEnvReady(env) && CheckoutCallback.IsPaymentSuccess(data)
    requires PurchaseByPaymentId(db.purchases, mtid).OneRow?
    ensures var p := db.purchases[PurchaseByPaymentId(db.purchases, mtid).index];
      var f := CheckoutCallback.Faults(false, false, false);
      var answer := Answered(ok, Some(data));
      var o1 := CheckoutCallback.HandleCallback(db, Some(mtid), env, sha256hex, answer, f, dec);
      var o2 := CheckoutCallback.HandleCallback(o1.db, Some(mtid), env, sha256hex, answer, f, dec);
      && o2.redirect == CheckoutCallback.Redirect(Success, Some(mtid))
      && o2.db.books == ApplyDecrement(ApplyDecrement(db.books, p.upcomingBookId, p.positionsPurchased, dec),
                                       p.upcomingBookId, p.positionsPurchased, dec)
  {
    var k := PurchaseByPaymentId(db.purchases, mtid).index;
    var p := db.purchases[k];
    var after := UpdatePurchases(db.purchases, Str(p.id), PurchasePatch(Success, None));
    CheckoutCallback.StatusWriteKeepsPaymentMatches(db.purchases, Str(p.id), Success, Str(mtid));
    assert PurchaseByPaymentId(after, mtid) == PurchaseByPaymentId(db.purchases, mtid);
    assert after[k] == ApplyPatch(p, PurchasePatch(Success, None));
  }

  /** Rewriting columns other than `id` keeps the rows `.eq("id", v)`
      matches. */
  lemma {:induction false} IdMatchesIgnoreOtherColumns(a: seq<Purchase>, b: seq<Purchase>, v: JsValue)
    requires |a| == |b| && forall i :: 0 <= i < |a| ==> a[i].id == b[i].id
    ensures PurchaseIdMatches(a, v) == PurchaseIdMatches(b, v)
  {
    if |a| > 0 {
      IdMatchesIgnoreOtherColumns(a[..|a| - 1], b[..|b| - 1], v);
    }
  }

  /** The webhook replayed with the same successful body decrements the
      purchase's book twice. */
  lemma {:induction false} ReplayedWebhookDecrementsTwice(db: Db, body: RequestBody, dec: Decrement, k: nat)
    requires UniquePurchaseIds(db.purchases)
    requires k < |db.purchases| && db.purchases[k].id != ""
    requires Str(db.purchases[k].id) == PaymentsCallback.OrderId(PaymentsCallback.EffectiveBody(body))
    requires PaymentsCallback.SettledStatus(PaymentsCallback.EffectiveBody(body)) == Success
    ensures var p := db.purchases[k];
      var f := PaymentsCallback.Faults(false, false);
      var o1 := PaymentsCallback.HandlePayment(db, body, f, dec);
      var o2 := PaymentsCallback.HandlePayment(o1.db, body, f, dec);
      o2.db.books == ApplyDecrement(ApplyDecrement(db.books, p.upcomingBookId, p.positionsPurchased, dec),
                                    p.upcomingBookId, p.positionsPurchased, dec)
  {
    var f := PaymentsCallback.Faults(false, false);
    var p := db.purchases[k];
    PaymentsCallback.MatchedById(db, body, f, dec, k);
    var o1 := PaymentsCallback.HandlePayment(db, body, f, dec);
    var b := PaymentsCallback.EffectiveBody(body);
    assert o1.db.purchases == db.purchases[k := p.(paymentStatus := Success, paymentId := PaymentsCallback.PaymentIdOf(b))];
    assert UniquePurchaseIds(o1.db.purchases) by {
      forall i, j | 0 <= i < j < |o1.db.purchases| ensures o1.db.purchases[i].id != o1.db.purchases[j].id {
        assert o1.db.purchases[i].id == db.purchases[i].id && o1.db.purchases[j].id == db.purchases[j].id;
      }
    }
    PaymentsCallback.MatchedById(o1.db, body, f, dec, k);
  }

  // ---------------------------------------------------------------------
  // Two orders against the same stock

  /** Everything intake checks before it inserts, for one order. */
  predicate Admissible(db: Db, v: JsValue, env: OrderIntake.IntakeEnv) {
    && !IsNullish(v) && OrderIntake.FieldsPresent(v) && env.user.Some? && !env.bookQueryFails
    && BookBySlug(db.books, Get(v, "bookSlug")).OneRow?
    && OrderIntake.ValidPositions(ToNumber(Get(v, "count")))
    && db.books[BookBySlug(db.books, Get(v, "bookSlug")).index].availablePositions >= ToNumber(Get(v, "count")).r
    && !env.insertFails && !HasPurchaseId(db.purchases, env.newRowId)
  }

  /** Two orders, each within the stock on its own, are both accepted one
      after the other, however far their sum exceeds the stock, because the
      first leaves the counter where it was. */
  lemma TwoIntakesBothAccepted(db: Db, v1: JsValue, env1: OrderIntake.IntakeEnv, v2: JsValue, env2: OrderIntake.IntakeEnv)
    requires Admissible(db, v1, env1) && Admissible(db, v2, env2)
    requires env1.newRowId != env2.newRowId
    ensures var o1 := OrderIntake.Intake(db, Parsed(v1), env1);
      var o2 := OrderIntake.Intake(o1.db, Parsed(v2), env2);
      && OrderIntake.Accepted(o1) && OrderIntake.Accepted(o2)
      && o2.db.books == db.books
      && |o2.db.purchases| == |db.purchases| + 2
  {
    var o1 := OrderIntake.Intake(db, Parsed(v1), env1);
    OrderIntake.AcceptedOrder(db, v1, env1);
    var row1 := o1.db.purchases[|db.purchases|];
    assert row1.id == env1.newRowId;
    assert !HasPurchaseId(o1.db.purchases, env2.newRowId) by {
      forall i | 0 <= i < |o1.db.purchases| ensures o1.db.purchases[i].id != env2.newRowId {
        if i < |db.purchases| { assert o1.db.purchases[i] == db.purchases[i]; }
      }
    }
    assert Admissible(o1.db, v2, env2);
    OrderIntake.AcceptedOrder(o1.db, v2, env2);
  }

  lemma {:induction false} NoPaymentIdMatch(rows: seq<Purchase>, v: JsValue)
    requires forall i :: 0 <= i < |rows| ==> rows[i].paymentId != v
    ensures PaymentIdMatches(rows, v) == []
  {
    if |rows| > 0 {
      NoPaymentIdMatch(rows[..|rows| - 1], v);
    }
  }

  /** A `payment_id` carried by one row only is found at that row. */
  lemma {:induction false} OnlyPaymentIdMatch(rows: seq<Purchase>, v: JsValue, j: nat)
    requires j < |rows| && rows[j].paymentId == v
    requires forall i :: 0 <= i < |rows| && i != j ==> rows[i].paymentId != v
    ensures PaymentIdMatches(rows, v) == [j]
  {
    var n := |rows| - 1;
    if j == n {
      NoPaymentIdMatch(rows[..n], v);
    } else {
      OnlyPaymentIdMatch(rows[..n], v, j);
    }
  }

  /** The counter after the two settlements when the procedure subtracts. */
  function Subtract(a: real, n: real): real {
    a - n
  }

  /** Two admissible orders for the same book, taken one after the other:
      both rows are appended, each with its own merchant transaction id, the
      same book and its own count. */
  lemma IntakePair(db: Db, v1: JsValue, env1: OrderIntake.IntakeEnv, v2: JsValue, env2: OrderIntake.IntakeEnv)
    requires Admissible(db, v1, env1) && Admissible(db, v2, env2)
    requires Get(v1, "bookSlug") == Get(v2, "bookSlug")
    requires env1.newRowId != env2.newRowId
    ensures var book := db.books[BookBySlug(db.books, Get(v1, "bookSlug")).index];
      var n0 := |db.purchases|;
      var o1 := OrderIntake.Intake(db, Parsed(v1), env1);
      var o2 := OrderIntake.Intake(o1.db, Parsed(v2), env2);
      var ps := o2.db.purchases;
      && OrderIntake.Accepted(o1) && OrderIntake.Accepted(o2)
      && o2.db.books == db.books
      && |ps| == n0 + 2
      && (forall i :: 0 <= i < n0 ==> ps[i] == db.purchases[i])
      && ps[n0].paymentId == Str(env1.merchantTransactionId) && ps[n0 + 1].paymentId == Str(env2.merchantTransactionId)
      && ps[n0].upcomingBookId == book.id && ps[n0 + 1].upcomingBookId == book.id
      && ps[n0].positionsPurchased == ToNumber(Get(v1, "count")).r
      && ps[n0 + 1].positionsPurchased == ToNumber(Get(v2, "count")).r
  {
    var n0 := |db.purchases|;
    TwoIntakesBothAccepted(db, v1, env1, v2, env2);
    var o1 := OrderIntake.Intake(db, Parsed(v1), env1);
    OrderIntake.AcceptedOrder(db, v1, env1);
    assert !HasPurchaseId(o1.db.purchases, env2.newRowId) by {
      forall i | 0 <= i < |o1.db.purchases| ensures o1.db.purchases[i].id != env2.newRowId {
        if i < n0 { assert o1.db.purchases[i] == db.purchases[i]; }
      }
    }
    assert Admissible(o1.db, v2, env2);
    OrderIntake.AcceptedOrder(o1.db, v2, env2);
    var o2 := OrderIntake.Intake(o1.db, Parsed(v2), env2);
    assert forall i :: 0 <= i < n0 ==> o2.db.purchases[i] == o1.db.purchases[i] == db.purchases[i];
  }

  /** Two successful checkout callbacks for two rows of the same book, each
      the only row carrying its transaction id, decrement that book twice. */
  lemma SettleTwice(db: Db, j1: nat, j2: nat, m1: string, m2: string, k: nat,
                    env: Env, sha256hex: string -> string, data: JsValue, ok: bool)
    requires j1 < |db.purchases| && j2 < |db.purchases| && j1 != j2 && k < |db.books|
    requires m1 != "" && m2 != ""
    requires db.purchases[j1].paymentId == Str(m1) && db.purchases[j2].paymentId == Str(m2)
    requires forall i :: 0 <= i < |db.purchases| && i != j1 ==> db.purchases[i].paymentId != Str(m1)
    requires forall i :: 0 <= i < |db.purchases| && i != j2 ==> db.purchases[i].paymentId != Str(m2)
    requires db.purchases[j1].upcomingBookId == db.books[k].id && db.purchases[j2].upcomingBookId == db.books[k].id
    requires CheckoutCallback.CallbackEnvReady(env) && CheckoutCallback.IsPaymentSuccess(data)
    ensures var f := CheckoutCallback.Faults(false, false, false);
      var answer := Answered(ok, Some(data));
      var s1 := CheckoutCallback.HandleCallback(db, Some(m1), env, sha256hex, answer, f, Subtract);
      var s2 := CheckoutCallback.HandleCallback(s1.db, Some(m2), env, sha256hex, answer, f, Subtract);
      && |s2.db.books| == |db.books|
      && s2.db.books[k].availablePositions
         == db.books[k].availablePositions - db.purchases[j1].positionsPurchased - db.purchases[j2].positionsPurchased
  {
    var ps := db.purchases;
    var r1 := ps[j1];
    OnlyPaymentIdMatch(ps, Str(m1), j1);
    assert PurchaseByPaymentId(ps, m1) == OneRow(j1);
    var ps1 := UpdatePurchases(ps, Str(r1.id), PurchasePatch(Success, None));
    var books1 := ApplyDecrement(db.books, r1.upcomingBookId, r1.positionsPurchased, Subtract);
    assert CheckoutCallback.HandleCallback(db, Some(m1), env, sha256hex, Answered(ok, Some(data)),
                                           CheckoutCallback.Faults(false, false, false), Subtract).db == Db(books1, ps1);
    OnlyPaymentIdMatch(ps, Str(m2), j2);
    CheckoutCallback.StatusWriteKeepsPaymentMatches(ps, Str(r1.id), Success, Str(m2));
    assert PurchaseByPaymentId(ps1, m2) == OneRow(j2);
    assert ps1[j2].upcomingBookId == ps[j2].upcomingBookId && ps1[j2].positionsPurchased == ps[j2].positionsPurchased;
  }

  /** The overselling window, end to end: two orders of `n1` and `n2`
      positions for a book with `a` available, each at most `a`, are both
      accepted; the checkout callback then settles both as successes, and
      with a procedure that subtracts, the counter ends at `a - n1 - n2`,
      below zero whenever `n1 + n2 > a`. */
  lemma OversellWindow(db: Db, v1: JsValue, env1: OrderIntake.IntakeEnv, v2: JsValue, env2: OrderIntake.IntakeEnv,
                       env: Env, sha256hex: string -> string, data: JsValue, ok: bool)
    requires Admissible(db, v1, env1) && Admissible(db, v2, env2)
    requires Get(v1, "bookSlug") == Get(v2, "bookSlug")
    requires env1.newRowId != env2.newRowId
    requires env1.merchantTransactionId != "" && env2.merchantTransactionId != ""
    requires env1.merchantTransactionId != env2.merchantTransactionId
    requires forall i :: 0 <= i < |db.purchases| ==>
      db.purchases[i].paymentId != Str(env1.merchantTransactionId) && db.purchases[i].paymentId != Str(env2.merchantTransactionId)
    requires CheckoutCallback.CallbackEnvReady(env) && CheckoutCallback.IsPaymentSuccess(data)
    ensures var k := BookBySlug(db.books, Get(v1, "bookSlug")).index;
      var a := db.books[k].availablePositions;
      var n1 := ToNumber(Get(v1, "count")).r;
      var n2 := ToNumber(Get(v2, "count")).r;
      var o1 := OrderIntake.Intake(db, Parsed(v1), env1);
      var o2 := OrderIntake.Intake(o1.db, Parsed(v2), env2);
      var f := CheckoutCallback.Faults(false, false, false);
      var answer := Answered(ok, Some(data));
      var s1 := CheckoutCallback.HandleCallback(o2.db, Some(env1.merchantTransactionId), env, sha256hex, answer, f, Subtract);
      var s2 := CheckoutCallback.HandleCallback(s1.db, Some(env2.merchantTransactionId), env, sha256hex, answer, f, Subtract);
      && OrderIntake.Accepted(o1) && OrderIntake.Accepted(o2)
      && n1 <= a && n2 <= a
      && |s2.db.books| == |db.books|
      && s2.db.books[k].availablePositions == a - n1 - n2
  {
    var n0 := |db.purchases|;
    var k := BookBySlug(db.books, Get(v1, "bookSlug")).index;
    IntakePair(db, v1, env1, v2, env2);
    var o1 := OrderIntake.Intake(db, Parsed(v1), env1);
    var o2 := OrderIntake.Intake(o1.db, Parsed(v2), env2);
    SettleTwice(o2.db, n0, n0 + 1, env1.merchantTransactionId, env2.merchantTransactionId, k, env, sha256hex, data, ok);
  }

  // ---------------------------------------------------------------------
  // Vocabularies and keys that do not line up

  /** A book created through the admin route is `published`, and the
      purchase page loads only `active` books: looking it up by its id never
      shows it. */
  lemma PublishedNeverLoads(db: Db, v: JsValue, env: AdminBooks.CreateEnv, queryFails: bool)
    requires AdminBooks.CreateBook(db, Parsed(v), env).reply.Created?
    ensures var o := AdminBooks.CreateBook(db, Parsed(v), env);
      !PurchasePage.LoadBook(o.db, true, Some(env.newId), queryFails).Loaded?
  {
    var o := AdminBooks.CreateBook(db, Parsed(v), env);
    var rows := o.db.books;
    assert rows == db.books + [o.reply.book];
    assert forall i :: 0 <= i < |rows| ==> !(rows[i].id == env.newId && rows[i].status == Active) by {
      forall i | 0 <= i < |rows| ensures !(rows[i].id == env.newId && rows[i].status == Active) {
        if i < |db.books| { assert rows[i] == db.books[i]; }
      }
    }
    NoActiveMatch(rows, env.newId);
  }

  lemma {:induction false} NoActiveMatch(rows: seq<Book>, id: string)
    requires forall i :: 0 <= i < |rows| ==> !(rows[i].id == id && rows[i].status == Active)
    ensures PurchasePage.ActiveIdMatches(rows, id) == []
  {
    if |rows| > 0 {
      NoActiveMatch(rows[..|rows| - 1], id);
    }
  }

  /** The checkout callback writes `success` or `failed`; the dashboard
      shows `failed` as failed but `success` with the grey default, while the
      purchase page's `completed` is the one success word it recognises. */
  lemma SettledStatusOnDashboard(db: Db, mtid: string, env: Env, sha256hex: string -> string,
                                 data: JsValue, ok: bool, dec: Decrement)
    requires mtid != "" && CheckoutCallback.CallbackEnvReady(env)
    requires UniquePurchaseIds(db.purchases)
    requires PurchaseByPaymentId(db.purchases, mtid).OneRow?
    ensures var k := PurchaseByPaymentId(db.purchases, mtid).index;
      var o := CheckoutCallback.HandleCallback(db, Some(mtid), env, sha256hex, Answered(ok, Some(data)),
                                               CheckoutCallback.Faults(false, false, false), dec);
      Dashboard.Classify(o.db.purchases[k].paymentStatus)
        == if CheckoutCallback.IsPaymentSuccess(data) then Dashboard.OtherClass else Dashboard.FailedClass
    ensures Dashboard.Classify(Success) == Dashboard.OtherClass && Dashboard.Classify(Completed) == Dashboard.CompletedClass
  {
    CheckoutCallback.MatchedStatusOverwritten(db, mtid, env, sha256hex, data, ok, CheckoutCallback.Faults(false, false, false), dec);
  }

  /** The two settlement handlers read success from different fields: a
      body whose only mark is `data.responseCode: "SUCCESS"` is a success
      for the checkout callback and a failure for the webhook, and a body
      whose `success` is the string `"false"` is the reverse. */
  lemma SettlementTestsDisagree()
    ensures var a := Obj([("data", Obj([("responseCode", Str("SUCCESS"))]))]);
      CheckoutCallback.Verdict(a) == Success && PaymentsCallback.SettledStatus(a) == Failed
    ensures var b := Obj([("success", Str("false"))]);
      CheckoutCallback.Verdict(b) == Failed && PaymentsCallback.SettledStatus(b) == Success
  {
    var a := Obj([("data", Obj([("responseCode", Str("SUCCESS"))]))]);
    LookupFound(a.fields, "data", 0);
    LookupFound(Get(a, "data").fields, "responseCode", 0);
    LookupAbsent(a.fields, "code");
    LookupAbsent(a.fields, "success");
    var b := Obj([("success", Str("false"))]);
    LookupFound(b.fields, "success", 0);
    LookupAbsent(b.fields, "code");
    LookupAbsent(b.fields, "data");
  }

  /** Every redirect of the checkout callback carries `success`, `failed` or
      `error`, so the result page never falls through to its neutral
      "Payment Status" branch. */
  lemma CallbackRedirectNeverNeutral(db: Db, mtid: Option<string>, env: Env, sha256hex: string -> string,
                                     answer: FetchResult, faults: CheckoutCallback.Faults, dec: Decrement)
    ensures var r := CheckoutCallback.HandleCallback(db, mtid, env, sha256hex, answer, faults, dec).redirect;
      && r.status in {"success", "failed", "error"}
      && ResultPage.ResultPageFor(Some(r.status), r.mtid).tone != ResultPage.Neutral
  {
  }

  /** The webhook matches on the purchase's `id`. It is the callback of
      `payments/phonepe/create`, which `books/[slug]/purchase` calls with
      the new row's `id` as `orderId`
      (app/api/books/[slug]/purchase/route.ts:72-75), so on that path the
      keys agree. Intake's rows are paid through `checkout/phonepe`, whose
      callback is the checkout callback, and never reach the webhook; a body
      that named intake's merchant transaction id would match no `id`,
      leaving the new row pending and the book untouched. */
  lemma WebhookMissesIntakeRow(db: Db, v: JsValue, env: OrderIntake.IntakeEnv, faults: PaymentsCallback.Faults,
                               dec: Decrement, success: bool)
    requires Admissible(db, v, env)
    requires env.merchantTransactionId != "" && env.merchantTransactionId != env.newRowId
    requires forall i :: 0 <= i < |db.purchases| ==> db.purchases[i].id != env.merchantTransactionId
    ensures var o := OrderIntake.Intake(db, Parsed(v), env);
      var hook := Parsed(Obj([("merchantTransactionId", Str(env.merchantTransactionId)), ("success", Bool(success))]));
      var after := PaymentsCallback.HandlePayment(o.db, hook, faults, dec);
      && after.db == o.db
      && after.db.purchases[|db.purchases|].paymentStatus == Pending
  {
    var o := OrderIntake.Intake(db, Parsed(v), env);
    OrderIntake.AcceptedOrder(db, v, env);
    var b := Obj([("merchantTransactionId", Str(env.merchantTransactionId)), ("success", Bool(success))]);
    LookupFound(b.fields, "merchantTransactionId", 0);
    LookupAbsent(b.fields, "data");
    assert PaymentsCallback.OrderId(b) == Str(env.merchantTransactionId);
    forall i | 0 <= i < |o.db.purchases| ensures Str(o.db.purchases[i].id) != Str(env.merchantTransactionId) {
      if i < |db.purchases| { assert o.db.purchases[i] == db.purchases[i]; }
    }
    PaymentsCallback.UnknownOrderIdIgnored(o.db, Parsed(b), faults, dec);
  }

  /** Intake stores the merchant transaction id in `payment_id`, so the
      dashboard shows a payment-id line for every order still pending, and the
      purchase page's row whose second write failed shows none. */
  lemma PaymentIdLineAfterWrites(db: Db, v: JsValue, env: OrderIntake.IntakeEnv,
                                 book: Book, user: string, data: PurchasePage.PurchaseData, penv: PurchasePage.PurchaseEnv)
    requires Admissible(db, v, env) && env.merchantTransactionId != ""
    requires !penv.insertFails && !HasPurchaseId(db.purchases, penv.newRowId) && penv.updateFails
    ensures var o := OrderIntake.Intake(db, Parsed(v), env);
      Dashboard.CardFor(o.db.purchases[|db.purchases|]).paymentIdLine == Some(Str(env.merchantTransactionId))
    ensures var (after, _) := PurchasePage.PurchaseFlow(db, Some(book), Some(user), data, penv);
      Dashboard.CardFor(after.purchases[|db.purchases|]).paymentIdLine.None?
  {
    OrderIntake.AcceptedOrder(db, v, env);
  }
}
