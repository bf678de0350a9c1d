/** The webhook leg (app/api/payments/phonepe/callback/route.ts, `POST`):
    read the order id, a verdict and a payment id out of the posted body,
    update the purchase whose `id` is the order id, and decrement its book
    on success. The body is not authenticated in any way. */
module PaymentsCallback {
  import opened JsValues
  import opened Tables
  import opened Http

  /** Database faults the handler does not look at: the update errs (no row
      comes back), the decrement procedure errs. */
  datatype Faults = Faults(updateFails: bool, decrementFails: bool)

  datatype Outcome = Outcome(db: Db, reply: Reply)

  /** `await req.json().catch(() => ({}))`. */
  function EffectiveBody(body: RequestBody): JsValue {
    if body.Unparseable? then Obj([]) else body.value
  }

  /** `body?.data?.merchantTransactionId || body?.merchantTransactionId || body?.orderId` */
  function OrderId(b: JsValue): JsValue {
    Or(Or(Get(Get(b, "data"), "merchantTransactionId"), Get(b, "merchantTransactionId")), Get(b, "orderId"))
  }

  /** `body?.code === "PAYMENT_SUCCESS" || body?.success ? "success" : "failed"` */
  function SettledStatus(b: JsValue): (r: string)
    ensures r == Success || r == Failed
    ensures r == Success <==> Get(b, "code") == Str("PAYMENT_SUCCESS") || Truthy(Get(b, "success"))
  {
    if Get(b, "code") == Str("PAYMENT_SUCCESS") || Truthy(Get(b, "success")) then Success else Failed
  }

  /** `body?.data?.transactionId || body?.transactionId || null` */
  function PaymentIdOf(b: JsValue): JsValue {
    Or(Or(Get(Get(b, "data"), "transactionId"), Get(b, "transactionId")), Null)
  }

  function OkReply(ok: bool): JsValue {
    Obj([("ok", Bool(ok))])
  }

  /** The handler. The update goes through `.single()`: when it does not
      match exactly one row no row comes back, and a statement that matched
      several is rolled back. */
  function HandlePayment(db: Db, body: RequestBody, faults: Faults, dec: Decrement): Outcome {
    var b := EffectiveBody(body);
    var orderId := OrderId(b);
    if !Truthy(orderId) then Outcome(db, Json(400, OkReply(false)))
    else
      var status := SettledStatus(b);
      var m := PurchaseIdMatches(db.purchases, orderId);
      if faults.updateFails || |m| != 1 then Outcome(db, Json(200, OkReply(true)))
      else
        var p := ApplyPatch(db.purchases[m[0]], PurchasePatch(status, Some(PaymentIdOf(b))));
        var purchases := db.purchases[m[0] := p];
        var books :=
          if status == Success && !faults.decrementFails
          then ApplyDecrement(db.books, p.upcomingBookId, p.positionsPurchased, dec)
          else db.books;
        Outcome(Db(books, purchases), Json(200, OkReply(true)))
  }

  // ---------------------------------------------------------------------
  // Properties

  /** The two `||` chains are the first truthy of their candidates, in the
      order written; the order id falls back to `body.orderId` whatever it
      is, the payment id to `null`. */
  lemma ExtractionChains(b: JsValue)
    ensures OrderId(b) == FirstTruthy([Get(Get(b, "data"), "merchantTransactionId"), Get(b, "merchantTransactionId")], Get(b, "orderId"))
    ensures PaymentIdOf(b) == FirstTruthy([Get(Get(b, "data"), "transactionId"), Get(b, "transactionId")], Null)
  {
    OrChainIsFirstTruthy(Get(Get(b, "data"), "merchantTransactionId"), Get(b, "merchantTransactionId"), Get(b, "orderId"));
    OrChainIsFirstTruthy(Get(Get(b, "data"), "transactionId"), Get(b, "transactionId"), Null);
  }

  /** The verdict is success exactly when `code` is the string
      `PAYMENT_SUCCESS` or `success` is truthy (any non-empty string, any
      non-zero number, any object will do). */
  lemma SettledStatusExamples()
    ensures SettledStatus(Obj([("success", Str("no"))])) == Success
    ensures SettledStatus(Obj([("success", Num(1.0))])) == Success
    ensures SettledStatus(Obj([("code", Str("PAYMENT_SUCCESS")), ("success", Bool(false))])) == Success
    ensures SettledStatus(Obj([("code", Str("PAYMENT_ERROR")), ("success", Bool(false))])) == Failed
    ensures SettledStatus(Obj([])) == Failed
  {
    var e := Obj([("code", Str("PAYMENT_ERROR")), ("success", Bool(false))]);
    assert Get(e, "code") == Lookup(e.fields[..1], "code") == Str("PAYMENT_ERROR");
  }

  /** The status reads `code` and `success` and nothing else: two bodies
      that agree on those get the same status, whatever their ids. */
  lemma SettledStatusReadsCodeAndSuccess(a: JsValue, b: JsValue)
    requires Get(a, "code") == Get(b, "code") && Truthy(Get(a, "success")) == Truthy(Get(b, "success"))
    ensures SettledStatus(a) == SettledStatus(b)
    ensures SettledStatus(a) == Success || SettledStatus(a) == Failed
  {
  }

  /** An unparseable body is read as `{}`, which has no order id: 400 with
      `{ok: false}` and no write. */
  lemma UnparseableRejected(db: Db, faults: Faults, dec: Decrement)
    ensures HandlePayment(db, Unparseable, faults, dec) == Outcome(db, Json(400, OkReply(false)))
  {
  }

  /** Without a truthy order id: 400 with `{ok: false}` and no write. */
  lemma MissingOrderIdRejected(db: Db, body: RequestBody, faults: Faults, dec: Decrement)
    requires !Truthy(OrderId(EffectiveBody(body)))
    ensures HandlePayment(db, body, faults, dec) == Outcome(db, Json(400, OkReply(false)))
  {
  }

  /** An order id that is no purchase's `id` (for instance the merchant
      transaction id that intake keeps in `payment_id`, the key of the
      checkout callback) is answered `{ok: true}` and nothing is written. */
  lemma UnknownOrderIdIgnored(db: Db, body: RequestBody, faults: Faults, dec: Decrement)
    requires Truthy(OrderId(EffectiveBody(body)))
    requires forall i :: 0 <= i < |db.purchases| ==> Str(db.purchases[i].id) != OrderId(EffectiveBody(body))
    ensures HandlePayment(db, body, faults, dec) == Outcome(db, Json(200, OkReply(true)))
  {
    NoIdMatch(db.purchases, OrderId(EffectiveBody(body)));
  }

  /** With unique ids, the purchase whose `id` is the order id gets the
      verdict as its `payment_status` and the extracted payment id (possibly
      `null`) as its `payment_id`, whatever they were; no other row changes;
      and its book is decremented by its positions exactly when the verdict
      is success. */
  lemma {:induction false} MatchedById(db: Db, body: RequestBody, faults: Faults, dec: Decrement, k: nat)
    requires UniquePurchaseIds(db.purchases) && !faults.updateFails && !faults.decrementFails
    requires k < |db.purchases| && db.purchases[k].id != "" && Str(db.purchases[k].id) == OrderId(EffectiveBody(body))
    ensures var b := EffectiveBody(body);
      var o := HandlePayment(db, body, faults, dec);
      var p := db.purchases[k];
      && o.reply == Json(200, OkReply(true))
      && o.db.purchases == db.purchases[k := p.(paymentStatus := SettledStatus(b), paymentId := PaymentIdOf(b))]
      && o.db.books == if SettledStatus(b) == Success
                       then ApplyDecrement(db.books, p.upcomingBookId, p.positionsPurchased, dec)
                       else db.books
  {
    var m := PurchaseIdMatches(db.purchases, OrderId(EffectiveBody(body)));
    assert k in m;
    AtMostOneIdMatch(db.purchases, OrderId(EffectiveBody(body)));
    assert m == [k];
  }

  lemma {:induction false} NoIdMatch(rows: seq<Purchase>, v: JsValue)
    requires forall i :: 0 <= i < |rows| ==> Str(rows[i].id) != v
    ensures PurchaseIdMatches(rows, v) == []
  {
    if |rows| > 0 {
      NoIdMatch(rows[..|rows| - 1], v);
    }
  }

  /** With unique ids, `.eq("id", v)` matches at most one purchase. */
  lemma {:induction false} AtMostOneIdMatch(rows: seq<Purchase>, v: JsValue)
    requires UniquePurchaseIds(rows)
    ensures |PurchaseIdMatches(rows, v)| <= 1
  {
    if |rows| > 0 {
      var n := |rows| - 1;
      assert UniquePurchaseIds(rows[..n]);
      AtMostOneIdMatch(rows[..n], v);
      if Str(rows[n].id) == v {
        forall i | 0 <= i < n ensures Str(rows[..n][i].id) != v {
          assert rows[i].id != rows[n].id;
        }
        NoIdMatch(rows[..n], v);
      }
    }
  }

  /** The payload is trusted: a body that names an existing purchase and says
      `success: true`, with no checksum or signature at all, marks the
      purchase a success and decrements its book. */
  lemma {:induction false} UnsignedBodySettles(db: Db, k: nat, dec: Decrement)
    requires UniquePurchaseIds(db.purchases) && k < |db.purchases| && db.purchases[k].id != ""
    ensures var p := db.purchases[k];
      var forged := Parsed(Obj([("orderId", Str(p.id)), ("success", Bool(true))]));
      var o := HandlePayment(db, forged, Faults(false, false), dec);
      && o.db.purchases[k].paymentStatus == Success
      && o.db.books == ApplyDecrement(db.books, p.upcomingBookId, p.positionsPurchased, dec)
  {
    var p := db.purchases[k];
    var b := Obj([("orderId", Str(p.id)), ("success", Bool(true))]);
    LookupFound(b.fields, "orderId", 0);
    LookupFound(b.fields, "success", 1);
    LookupAbsent(b.fields, "data");
    LookupAbsent(b.fields, "merchantTransactionId");
    assert OrderId(b) == Str(p.id);
    assert SettledStatus(b) == Success;
    MatchedById(db, Parsed(b), Faults(false, false), dec, k);
  }
}
