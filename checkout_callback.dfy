/** The return leg of the checkout flow
    (app/api/checkout/phonepe/callback/route.ts, `handleCallback`): ask
    PhonePe for the transaction's status, find the purchase by its
    `payment_id`, write the outcome into `payment_status` and, on success,
    decrement the book's available positions. */
module CheckoutCallback {
  import opened JsValues
  import opened Tables
  import opened PhonePe

  /** The redirect to `/purchase/result` with its `status` and, when set,
      its `mtid` query parameter. */
  datatype Redirect = Redirect(status: string, mtid: Option<string>)

  const ErrorRedirect := Redirect("error", None)

  /** The handler's database faults: the `maybeSingle` lookup errs, the
      status update errs, the decrement procedure errs. The handler reads
      only the first; the other two are ignored and leave their table as it
      was. */
  datatype Faults = Faults(lookupFails: bool, updateFails: bool, decrementFails: bool)

  /** The new store, the status request sent to PhonePe (if any), and the
      redirect. */
  datatype Outcome = Outcome(db: Db, request: Option<Request>, redirect: Redirect)

  /** PhonePe's answer counts as a success. Comparisons are strict: `true`
      must be the boolean and the codes must be those strings. */
  predicate IsPaymentSuccess(data: JsValue) {
    || (Get(data, "success") == Bool(true)
        && (Get(data, "code") == Str("PAYMENT_SUCCESS") || Get(Get(data, "data"), "state") == Str("COMPLETED")))
    || Get(Get(data, "data"), "responseCode") == Str("SUCCESS")
  }

  /** The status word both the table and the redirect receive. */
  function Verdict(data: JsValue): (r: string)
    ensures r == Success || r == Failed
    ensures r == Success <==> IsPaymentSuccess(data)
  {
    if IsPaymentSuccess(data) then Success else Failed
  }

  /** All four `PHONEPE_*` variables the handler tests are set. */
  predicate CallbackEnvReady(env: Env) {
    EnvSet(env.merchantId) && EnvSet(env.saltKey) && EnvSet(env.saltIndex) && EnvSet(env.baseUrl)
  }

  /** `GET {BASE_URL}/pg/v1/status/{MERCHANT_ID}/{mtid}` with its checksum. */
  function StatusRequest(env: Env, mtid: string, sha256hex: string -> string): Request
    requires CallbackEnvReady(env)
  {
    var path := StatusPath(env.merchantId.value, mtid);
    Request("GET", env.baseUrl.value + path,
      [("Content-Type", "application/json"),
       ("X-VERIFY", XVerify(sha256hex, path + env.saltKey.value, env.saltIndex.value)),
       ("X-MERCHANT-ID", env.merchantId.value)],
      None)
  }

  /** The handler. `mtid` is the query parameter (`None` when absent),
      `answer` what the status request and `resp.json()` gave, `dec` the
      decrement procedure. */
  function HandleCallback(db: Db, mtid: Option<string>, env: Env, sha256hex: string -> string,
                          answer: FetchResult, faults: Faults, dec: Decrement): Outcome
  {
    if mtid.None? || mtid.value == "" then Outcome(db, None, ErrorRedirect)
    else if !CallbackEnvReady(env) then Outcome(db, None, ErrorRedirect)
    else
      var request := Some(StatusRequest(env, mtid.value, sha256hex));
      if !HasJson(answer) then
        // `fetch` or `resp.json()` threw: the `catch` block
        Outcome(db, request, ErrorRedirect)
      else
        var status := Verdict(answer.json.value);
        var found := PurchaseByPaymentId(db.purchases, mtid.value);
        if faults.lookupFails || !found.OneRow? then Outcome(db, request, Redirect(status, mtid))
        else
          var p := db.purchases[found.index];
          var purchases :=
            if faults.updateFails then db.purchases
            else UpdatePurchases(db.purchases, Str(p.id), PurchasePatch(status, None));
          var books :=
            if status == Success && !faults.decrementFails
            then ApplyDecrement(db.books, p.upcomingBookId, p.positionsPurchased, dec)
            else db.books;
          Outcome(Db(books, purchases), request, Redirect(status, mtid))
  }

  // ---------------------------------------------------------------------
  // Properties

  /** Concrete answers: each disjunct of the predicate alone suffices, a
      truthy but non-boolean `success` does not, and `success: true` alone
      does not either. */
  lemma SuccessPredicateExamples()
    ensures IsPaymentSuccess(Obj([("success", Bool(true)), ("code", Str("PAYMENT_SUCCESS"))]))
    ensures IsPaymentSuccess(Obj([("success", Bool(true)), ("data", Obj([("state", Str("COMPLETED"))]))]))
    ensures IsPaymentSuccess(Obj([("success", Bool(false)), ("data", Obj([("responseCode", Str("SUCCESS"))]))]))
    ensures !IsPaymentSuccess(Obj([("success", Str("true")), ("code", Str("PAYMENT_SUCCESS"))]))
    ensures !IsPaymentSuccess(Obj([("success", Bool(true)), ("code", Str("PAYMENT_PENDING"))]))
    ensures !IsPaymentSuccess(Null)
  {
    var strTrue := Obj([("success", Str("true")), ("code", Str("PAYMENT_SUCCESS"))]);
    assert Get(strTrue, "success") == Str("true");
    assert Lookup(strTrue.fields, "data") == Lookup(strTrue.fields[..1], "data") == Lookup([], "data");
    var pending := Obj([("success", Bool(true)), ("code", Str("PAYMENT_PENDING"))]);
    assert Get(pending, "code") == Str("PAYMENT_PENDING");
    assert Lookup(pending.fields, "data") == Lookup(pending.fields[..1], "data") == Lookup([], "data");
  }

  /** The verdict reads four fields of the answer and nothing else: two
      answers that agree on `success`, `code`, `data.state` and
      `data.responseCode` get the same verdict. */
  lemma VerdictReadsStatusFields(a: JsValue, b: JsValue)
    requires Get(a, "success") == Get(b, "success") && Get(a, "code") == Get(b, "code")
    requires Get(Get(a, "data"), "state") == Get(Get(b, "data"), "state")
    requires Get(Get(a, "data"), "responseCode") == Get(Get(b, "data"), "responseCode")
    ensures Verdict(a) == Verdict(b)
    ensures Verdict(a) == Success || Verdict(a) == Failed
  {
  }

  /** Without an `mtid`, or with any of the four variables unset, the
      handler redirects with `status=error`, sends nothing and writes
      nothing. */
  lemma EarlyExitsAreErrors(db: Db, mtid: Option<string>, env: Env, sha256hex: string -> string,
                            answer: FetchResult, faults: Faults, dec: Decrement)
    requires mtid.None? || mtid.value == "" || !CallbackEnvReady(env)
    ensures HandleCallback(db, mtid, env, sha256hex, answer, faults, dec) == Outcome(db, None, ErrorRedirect)
  {
  }

  /** The status request goes to `{BASE_URL}/pg/v1/status/{MERCHANT_ID}/{mtid}`
      and its X-VERIFY header is the digest of that path followed by the salt
      key, then `###`, then the salt index. */
  lemma StatusChecksumLayout(db: Db, mtid: string, env: Env, sha256hex: string -> string,
                             answer: FetchResult, faults: Faults, dec: Decrement)
    requires mtid != "" && CallbackEnvReady(env)
    ensures var o := HandleCallback(db, Some(mtid), env, sha256hex, answer, faults, dec);
      var path := "/pg/v1/status/" + env.merchantId.value + "/" + mtid;
      && o.request.Some?
      && o.request.value.verb == "GET"
      && o.request.value.url == env.baseUrl.value + path
      && Header(o.request.value.headers, "X-VERIFY") == Some(sha256hex(path + env.saltKey.value) + "###" + env.saltIndex.value)
      && Header(o.request.value.headers, "X-MERCHANT-ID") == Some(env.merchantId.value)
  {
    var hs := StatusRequest(env, mtid, sha256hex).headers;
    assert Header(hs, "X-MERCHANT-ID") == Header(hs[1..], "X-MERCHANT-ID") == Header(hs[2..], "X-MERCHANT-ID");
  }

  /** A failed fetch or an unreadable answer is the `catch` block:
      `status=error`, no writes. */
  lemma ThrownIsError(db: Db, mtid: string, env: Env, sha256hex: string -> string,
                      answer: FetchResult, faults: Faults, dec: Decrement)
    requires mtid != "" && CallbackEnvReady(env) && !HasJson(answer)
    ensures var o := HandleCallback(db, Some(mtid), env, sha256hex, answer, faults, dec);
      o.db == db && o.redirect == ErrorRedirect
  {
  }

  /** When no purchase carries `payment_id = mtid` the handler still
      redirects with the verdict and the `mtid`, and writes nothing. */
  lemma NoMatchNoWrites(db: Db, mtid: string, env: Env, sha256hex: string -> string,
                        data: JsValue, ok: bool, faults: Faults, dec: Decrement)
    requires mtid != "" && CallbackEnvReady(env)
    requires forall i :: 0 <= i < |db.purchases| ==> db.purchases[i].paymentId != Str(mtid)
    ensures var o := HandleCallback(db, Some(mtid), env, sha256hex, Answered(ok, Some(data)), faults, dec);
      o.db == db && o.redirect == Redirect(if IsPaymentSuccess(data) then "success" else "failed", Some(mtid))
  {
  }

  /** With a matched purchase (ids unique), exactly that row's
      `payment_status` becomes the verdict, whatever it was before (pending,
      failed, or an earlier success); no other row and no other column
      changes. */
  lemma MatchedStatusOverwritten(db: Db, mtid: string, env: Env, sha256hex: string -> string,
                                 data: JsValue, ok: bool, faults: Faults, dec: Decrement)
    requires mtid != "" && CallbackEnvReady(env) && !faults.lookupFails && !faults.updateFails
    requires UniquePurchaseIds(db.purchases)
    requires PurchaseByPaymentId(db.purchases, mtid).OneRow?
    ensures var k := PurchaseByPaymentId(db.purchases, mtid).index;
      var o := HandleCallback(db, Some(mtid), env, sha256hex, Answered(ok, Some(data)), faults, dec);
      && |o.db.purchases| == |db.purchases|
      && o.db.purchases[k] == db.purchases[k].(paymentStatus := Verdict(data))
      && (forall i :: 0 <= i < |db.purchases| && i != k ==> o.db.purchases[i] == db.purchases[i])
  {
    var k := PurchaseByPaymentId(db.purchases, mtid).index;
    forall i | 0 <= i < |db.purchases| && i != k
      ensures Str(db.purchases[i].id) != Str(db.purchases[k].id)
    {
      if i < k { assert db.purchases[i].id != db.purchases[k].id; }
      else { assert db.purchases[k].id != db.purchases[i].id; }
    }
  }

  /** The book counter moves exactly when the verdict is success: then the
      purchase's book is decremented by the purchase's positions, with no
      test of the purchase's previous status; otherwise `upcoming_books` is
      as it was. */
  lemma DecrementIffSuccess(db: Db, mtid: string, env: Env, sha256hex: string -> string,
                            data: JsValue, ok: bool, faults: Faults, dec: Decrement)
    requires mtid != "" && CallbackEnvReady(env) && !faults.lookupFails && !faults.decrementFails
    requires PurchaseByPaymentId(db.purchases, mtid).OneRow?
    ensures var p := db.purchases[PurchaseByPaymentId(db.purchases, mtid).index];
      var o := HandleCallback(db, Some(mtid), env, sha256hex, Answered(ok, Some(data)), faults, dec);
      o.db.books == if IsPaymentSuccess(data)
                    then ApplyDecrement(db.books, p.upcomingBookId, p.positionsPurchased, dec)
                    else db.books
  {
  }

  /** Writing a status never moves a row out of, or into, the set matched
      by `payment_id`, so a repeated callback finds the same purchase. */
  lemma {:induction false} StatusWriteKeepsPaymentMatches(purchases: seq<Purchase>, id: JsValue, status: string, v: JsValue)
    ensures PaymentIdMatches(UpdatePurchases(purchases, id, PurchasePatch(status, None)), v)
         == PaymentIdMatches(purchases, v)
  {
    if |purchases| > 0 {
      var f := PurchasePatch(status, None);
      var u := UpdatePurchases(purchases, id, f);
      var n := |purchases| - 1;
      assert u[..n] == UpdatePurchases(purchases[..n], id, f);
      StatusWriteKeepsPaymentMatches(purchases[..n], id, status, v);
      assert u[n].paymentId == purchases[n].paymentId;
    }
  }
}
