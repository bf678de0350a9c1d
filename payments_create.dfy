/** The second payment initiation route
    (app/api/payments/phonepe/create/route.ts, `POST`): check the merchant
    variables, post an unsigned pay payload, and hand back the first
    redirect address found in PhonePe's answer. */
module PaymentsCreate {
  import opened JsValues
  import opened Tables
  import opened Http
  import opened PhonePe

  datatype Outcome = Outcome(request: Option<Request>, reply: Reply)

  const DefaultBase := "https://api.phonepe.com/apis/hermes"

  /** `merchantId`, `saltKey` and `saltIndex` are set; the base URL has a
      default. */
  predicate CreateEnvReady(env: Env) {
    EnvSet(env.merchantId) && EnvSet(env.saltKey) && EnvSet(env.saltIndex)
  }

  /** The payload: `amount * 100` (not rounded), the order id as the
      merchant transaction id, the e-mail or `user` as the merchant user. */
  function CreatePayload(v: JsValue, env: Env): JsValue
    requires CreateEnvReady(env)
  {
    Obj([
      ("merchantId", Str(env.merchantId.value)),
      ("amount", NumberToJson(Mul(ToNumber(Get(v, "amount")), Finite(100.0)))),
      ("merchantTransactionId", Get(v, "orderId")),
      ("merchantUserId", Or(Get(v, "userEmail"), Str("user"))),
      ("redirectUrl", Get(v, "redirectUrl")),
      ("callbackUrl", Get(v, "callbackUrl")),
      ("paymentInstrument", Obj([("type", Str("PAY_PAGE"))]))])
  }

  /** `POST {base}/pg/v1/pay`, with no checksum header. */
  function CreateRequest(v: JsValue, env: Env, fx: Foreign): Request
    requires CreateEnvReady(env)
  {
    Request("POST", EnvOr(env.baseUrl, DefaultBase) + PayPath,
      [("Content-Type", "application/json"), ("X-MERCHANT-ID", env.merchantId.value)],
      Some(fx.stringify(Obj([("request", Str(fx.base64(fx.stringify(CreatePayload(v, env)))))]))))
  }

  /** `data?.data?.instrumentResponse?.redirectInfo?.url || data?.data?.redirectUrl || data?.redirectUrl || null` */
  function CheckoutUrl(data: JsValue): JsValue {
    Or(Or(Or(Get(Get(Get(Get(data, "data"), "instrumentResponse"), "redirectInfo"), "url"),
             Get(Get(data, "data"), "redirectUrl")),
          Get(data, "redirectUrl")),
       Null)
  }

  /** The handler. The answer's HTTP status is not looked at. */
  function CreatePayment(body: RequestBody, env: Env, fx: Foreign, answer: FetchResult): Outcome {
    if body.Unparseable? || IsNullish(body.value) then Outcome(None, Caught("Payment init error"))
    else if !CreateEnvReady(env) then Outcome(None, Json(500, ErrorBody("PhonePe env vars missing")))
    else
      var request := Some(CreateRequest(body.value, env, fx));
      if !HasJson(answer) then Outcome(request, Caught("Payment init error"))
      else
        var url := CheckoutUrl(answer.json.value);
        if !Truthy(url) then Outcome(request, Json(500, ErrorBody("No redirect URL from PhonePe")))
        else Outcome(request, Json(200, Obj([("checkoutUrl", url)])))
  }

  // ---------------------------------------------------------------------
  // Properties

  /** A missing merchant variable is answered 500 before any request. */
  lemma EnvMissingRejected(v: JsValue, env: Env, fx: Foreign, answer: FetchResult)
    requires !IsNullish(v)
    ensures !CreateEnvReady(env) <==>
      CreatePayment(Parsed(v), env, fx, answer) == Outcome(None, Json(500, ErrorBody("PhonePe env vars missing")))
  {
  }

  /** The request goes to the configured base or, when that is unset or
      empty, to the production host, and carries no X-VERIFY header. */
  lemma {:induction false} UnsignedRequest(v: JsValue, env: Env, fx: Foreign, answer: FetchResult)
    requires !IsNullish(v) && CreateEnvReady(env)
    ensures var o := CreatePayment(Parsed(v), env, fx, answer);
      && o.request.Some?
      && o.request.value.url == (if EnvSet(env.baseUrl) then env.baseUrl.value else "https://api.phonepe.com/apis/hermes") + "/pg/v1/pay"
      && Header(o.request.value.headers, "X-VERIFY") == None
      && Header(o.request.value.headers, "X-MERCHANT-ID") == Some(env.merchantId.value)
  {
    var hs := CreateRequest(v, env, fx).headers;
    assert hs[1..][1..] == [];
    assert Header(hs, "X-VERIFY") == Header(hs[1..], "X-VERIFY") == Header(hs[1..][1..], "X-VERIFY");
  }

  /** The payload's fields. */
  lemma {:induction false} CreatePayloadFields(v: JsValue, env: Env)
    requires CreateEnvReady(env)
    ensures var p := CreatePayload(v, env);
      && Get(p, "merchantId") == Str(env.merchantId.value)
      && Get(p, "amount") == NumberToJson(Mul(ToNumber(Get(v, "amount")), Finite(100.0)))
      && Get(p, "merchantTransactionId") == Get(v, "orderId")
      && Get(p, "merchantUserId") == (if Truthy(Get(v, "userEmail")) then Get(v, "userEmail") else Str("user"))
  {
    var p := CreatePayload(v, env);
    LookupFound(p.fields, "merchantId", 0);
    LookupFound(p.fields, "amount", 1);
    LookupFound(p.fields, "merchantTransactionId", 2);
    LookupFound(p.fields, "merchantUserId", 3);
  }

  /** `amount * 100` is not rounded: an amount of 1.005 rupees is sent as
      100.5 paise. */
  lemma UnroundedAmount(env: Env)
    requires CreateEnvReady(env)
    ensures Get(CreatePayload(Obj([("amount", Num(1.005))]), env), "amount") == Num(100.5)
  {
    CreatePayloadFields(Obj([("amount", Num(1.005))]), env);
  }

  /** The redirect address is the first truthy of the three places, in
      order, else `null`. */
  lemma CheckoutUrlChain(data: JsValue)
    ensures CheckoutUrl(data) == FirstTruthy(
      [Get(Get(Get(Get(data, "data"), "instrumentResponse"), "redirectInfo"), "url"),
       Get(Get(data, "data"), "redirectUrl"),
       Get(data, "redirectUrl")], Null)
  {
    OrChain3IsFirstTruthy(
      Get(Get(Get(Get(data, "data"), "instrumentResponse"), "redirectInfo"), "url"),
      Get(Get(data, "data"), "redirectUrl"), Get(data, "redirectUrl"), Null);
  }

  /** With an answer, the reply is `{ checkoutUrl }` exactly when one of the
      three places holds a truthy value, and 500 otherwise; a non-OK HTTP
      status does not change that. */
  lemma AnswerHandling(v: JsValue, env: Env, fx: Foreign, ok: bool, data: JsValue)
    requires !IsNullish(v) && CreateEnvReady(env)
    ensures var o := CreatePayment(Parsed(v), env, fx, Answered(ok, Some(data)));
      && (Truthy(CheckoutUrl(data)) ==> o.reply == Json(200, Obj([("checkoutUrl", CheckoutUrl(data))])))
      && (!Truthy(CheckoutUrl(data)) <==> o.reply == Json(500, ErrorBody("No redirect URL from PhonePe")))
      && o == CreatePayment(Parsed(v), env, fx, Answered(!ok, Some(data)))
  {
  }
}
