/** The checkout request (app/api/checkout/phonepe/route.ts, `POST`): check
    the parameters, build the PhonePe pay payload, sign it and relay
    PhonePe's verdict. Nothing is written to the store. */
module CheckoutPay {
  import opened JsValues
  import opened Tables
  import opened Http
  import opened PhonePe

  /** The request sent to PhonePe (none on an early exit) and the reply. */
  datatype Outcome = Outcome(request: Option<Request>, reply: Reply)

  const LocalBase := "http://localhost:3000"

  /** `const { amount, ... } = await req.json()` throws: the body is not
      JSON, or it is `null`. */
  predicate Undestructurable(body: RequestBody) {
    body.Unparseable? || IsNullish(body.value)
  }

  /** `amount`, `merchantTransactionId`, `bookSlug` and `count` are truthy;
      `userId` is optional. */
  predicate ParamsPresent(v: JsValue) {
    Truthy(Get(v, "amount")) && Truthy(Get(v, "merchantTransactionId"))
    && Truthy(Get(v, "bookSlug")) && Truthy(Get(v, "count"))
  }

  /** The address PhonePe sends the shopper back to, and calls. */
  function ReturnUrl(env: Env, mtid: JsValue, numberText: real -> string): string {
    EnvOr(env.publicBaseUrl, LocalBase) + "/api/checkout/phonepe/callback?mtid=" + ToStr(mtid, numberText)
  }

  /** The amount in paise: `Math.round(Number(amount) * 100)`, as JSON. */
  function Paise(amount: JsValue): JsValue {
    NumberToJson(Round(Mul(ToNumber(amount), Finite(100.0))))
  }

  /** The pay payload, fields in the order of the object literal. */
  function PayPayload(v: JsValue, env: Env, numberText: real -> string): JsValue {
    var url := ReturnUrl(env, Get(v, "merchantTransactionId"), numberText);
    Obj([
      ("merchantId", EnvJson(env.merchantId)),
      ("merchantTransactionId", Get(v, "merchantTransactionId")),
      ("merchantUserId", Str(ToStr(Or(Get(v, "userId"), Str("guest")), numberText))),
      ("amount", Paise(Get(v, "amount"))),
      ("redirectUrl", Str(url)),
      ("redirectMode", Str("POST")),
      ("callbackUrl", Str(url)),
      ("paymentInstrument", Obj([("type", Str("PAY_PAGE"))]))])
  }

  /** `payloadStr`: the base64 of the payload's JSON text. */
  function PayloadText(v: JsValue, env: Env, fx: Foreign): string {
    fx.base64(fx.stringify(PayPayload(v, env, fx.numberText)))
  }

  /** `POST {BASE_URL}/pg/v1/pay` with the checksum and `{ request: payloadStr }`. */
  function PayRequest(v: JsValue, env: Env, fx: Foreign): Request {
    var payloadStr := PayloadText(v, env, fx);
    Request("POST", EnvText(env.baseUrl) + PayPath,
      [("Content-Type", "application/json"),
       ("X-VERIFY", XVerify(fx.sha256hex, payloadStr + PayPath + EnvText(env.saltKey), EnvText(env.saltIndex))),
       ("X-MERCHANT-ID", EnvText(env.merchantId))],
      Some(fx.stringify(Obj([("request", Str(payloadStr))]))))
  }

  /** The handler; `answer` is what `fetch` and `resp.json()` gave. */
  function CreateCheckout(body: RequestBody, env: Env, fx: Foreign, answer: FetchResult): Outcome {
    if Undestructurable(body) then Outcome(None, Caught("Server error"))
    else
      var v := body.value;
      if !ParamsPresent(v) then Outcome(None, Json(400, ErrorBody("Missing params")))
      else
        var request := Some(PayRequest(v, env, fx));
        if !HasJson(answer) then Outcome(request, Caught("Server error"))
        else
          var data := answer.json.value;
          if !answer.ok || Get(data, "success") != Bool(true) then
            Outcome(request, Json(400, Obj([("error", Str("PhonePe error")), ("details", data)])))
          else
            Outcome(request, Json(200, Obj([("instrumentResponse", Get(data, "data"))])))
  }

  // ---------------------------------------------------------------------
  // Properties

  /** A missing parameter is answered 400 "Missing params" before any
      request to PhonePe; a missing `userId` is not. */
  lemma MissingParamsRejected(v: JsValue, env: Env, fx: Foreign, answer: FetchResult)
    requires !IsNullish(v)
    ensures !ParamsPresent(v) <==>
      CreateCheckout(Parsed(v), env, fx, answer) == Outcome(None, Json(400, ErrorBody("Missing params")))
  {
  }

  /** The payload's fields: the user id (or `guest`) as text, the amount in
      whole paise, one return address used both as redirect and callback,
      ending in `?mtid=` and the transaction id, on
      `http://localhost:3000` when `NEXT_PUBLIC_BASE_URL` is unset or empty. */
  lemma {:induction false} PayloadFields(v: JsValue, env: Env, numberText: real -> string)
    ensures var p := PayPayload(v, env, numberText);
      var mtidText := ToStr(Get(v, "merchantTransactionId"), numberText);
      var base := if EnvSet(env.publicBaseUrl) then env.publicBaseUrl.value else "http://localhost:3000";
      && Get(p, "merchantTransactionId") == Get(v, "merchantTransactionId")
      && Get(p, "merchantUserId") == Str(if Truthy(Get(v, "userId")) then ToStr(Get(v, "userId"), numberText) else "guest")
      && Get(p, "amount") == Paise(Get(v, "amount"))
      && Get(p, "redirectUrl") == Get(p, "callbackUrl")
      && Get(p, "redirectUrl") == Str(base + "/api/checkout/phonepe/callback?mtid=" + mtidText)
      && Get(p, "redirectMode") == Str("POST")
  {
    var p := PayPayload(v, env, numberText);
    LookupFound(p.fields, "merchantTransactionId", 1);
    LookupFound(p.fields, "merchantUserId", 2);
    LookupFound(p.fields, "amount", 3);
    LookupFound(p.fields, "redirectUrl", 4);
    LookupFound(p.fields, "redirectMode", 5);
    LookupFound(p.fields, "callbackUrl", 6);
  }

  /** A finite amount becomes a whole number of paise within half a paisa
      of a hundred times the amount; a non-numeric one is sent as `null`. */
  lemma AmountInPaise(amount: JsValue)
    ensures ToNumber(amount).Finite? ==>
      var a := ToNumber(amount).r;
      && Paise(amount).Num?
      && Paise(amount).n == Paise(amount).n.Floor as real
      && 100.0 * a - 0.5 < Paise(amount).n <= 100.0 * a + 0.5
    ensures ToNumber(amount).NaN? ==> Paise(amount) == Null
  {
    if ToNumber(amount).Finite? {
      RoundIsNearestInteger(ToNumber(amount).r * 100.0);
    }
  }

  /** The request: its X-VERIFY header is the digest of `payloadStr`,
      `/pg/v1/pay` and the salt key, then `###` and the salt index, and its
      body carries that same `payloadStr`, the base64 of the payload's JSON. */
  lemma {:induction false} PayChecksumLayout(v: JsValue, env: Env, fx: Foreign, answer: FetchResult)
    requires !IsNullish(v) && ParamsPresent(v)
    ensures var o := CreateCheckout(Parsed(v), env, fx, answer);
      var payloadStr := fx.base64(fx.stringify(PayPayload(v, env, fx.numberText)));
      && o.request.Some?
      && o.request.value.verb == "POST"
      && o.request.value.url == EnvText(env.baseUrl) + "/pg/v1/pay"
      && Header(o.request.value.headers, "X-VERIFY")
         == Some(fx.sha256hex(payloadStr + "/pg/v1/pay" + EnvText(env.saltKey)) + "###" + EnvText(env.saltIndex))
      && o.request.value.body == Some(fx.stringify(Obj([("request", Str(payloadStr))])))
  {
    var hs := PayRequest(v, env, fx).headers;
    assert Header(hs, "X-VERIFY") == Header(hs[1..], "X-VERIFY");
  }

  /** PhonePe's answer is relayed as 200 with `instrumentResponse` exactly
      when the HTTP status is OK and `success` is the boolean `true`;
      otherwise 400 "PhonePe error" with the answer as `details`. */
  lemma ResponseCheck(v: JsValue, env: Env, fx: Foreign, ok: bool, data: JsValue)
    requires !IsNullish(v) && ParamsPresent(v)
    ensures var o := CreateCheckout(Parsed(v), env, fx, Answered(ok, Some(data)));
      && (ok && Get(data, "success") == Bool(true) <==>
          o.reply == Json(200, Obj([("instrumentResponse", Get(data, "data"))])))
      && (!(ok && Get(data, "success") == Bool(true)) <==>
          o.reply == Json(400, Obj([("error", Str("PhonePe error")), ("details", data)])))
  {
  }
}
