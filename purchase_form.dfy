/** The purchase form on a book page (components/purchase-form.tsx): the
    running total, the position choices, when the button is enabled, and
    what a submit does. The form's state is a class; `submit` is its
    method. */
module PurchaseForm {
  import opened JsValues
  import opened Tables

  /** `positions * (pricePerPosition || 0)` */
  function Total(positions: int, price: JsNumber): JsNumber {
    Mul(Finite(positions as real), NumOr(price, 0.0))
  }

  /** `Math.max(available, 0)` as an array length (truncated). */
  function OptionCount(available: real): nat {
    if available <= 0.0 then 0 else available.Floor as nat
  }

  /** The `<option>` values `1 .. length`. */
  function PositionOptions(available: real): (r: seq<int>)
    ensures |r| == OptionCount(available)
    ensures forall i :: 0 <= i < |r| ==> r[i] == i + 1
  {
    seq(OptionCount(available), i => i + 1)
  }

  /** `loading || !agree || positions < 1 || positions > available || !isLoggedIn` */
  predicate SubmitDisabled(loading: bool, agree: bool, positions: int, available: real, isLoggedIn: bool) {
    loading || !agree || positions < 1 || positions as real > available || !isLoggedIn
  }

  /** The multipart request the form posts. */
  datatype FormRequest = FormRequest(url: string, positionsField: string, phone: string, bio: string)

  /** What came back: `fetch` threw (with its `message`, `undefined` when it
      has none), `res.json()` threw (the message is the runtime's), or a
      response with its `ok` flag, status and JSON body. */
  datatype Answer = FetchThrew(message: JsValue) | JsonThrew | Responded(ok: bool, status: int, json: JsValue)

  /** What the page does: go to a location, show an alert, show an alert
      with the runtime's TypeError message (reading a property of a `null`
      body), or nothing. */
  datatype Action = Navigate(location: JsValue) | Alert(message: JsValue) | RuntimeAlert | NoAction

  function SignInUrl(slug: string): string {
    "/auth/sign-in?next=/books/" + slug
  }

  /** The request for the form's current values. */
  function RequestFor(slug: string, positions: int, phone: string, bio: string): FormRequest {
    FormRequest("/api/books/" + slug + "/purchase", IntText(positions), phone, bio)
  }

  /** The `try` block once the request is out, with its `catch`. The
      condition `res.ok && json.checkoutUrl` reads `json` only when the
      response is OK, so only then does a `null` body throw; otherwise
      `json?.error` reads a `null` body as having no error. */
  function Respond(slug: string, answer: Answer): Action {
    match answer
    case FetchThrew(message) => Alert(Or(message, Str("Unexpected error")))
    case JsonThrew => RuntimeAlert
    case Responded(ok, status, json) =>
      if ok && IsNullish(json) then RuntimeAlert
      else if ok && Truthy(Get(json, "checkoutUrl")) then Navigate(Get(json, "checkoutUrl"))
      else if status == 401 then Navigate(Str(SignInUrl(slug)))
      else Alert(Or(Get(json, "error"), Str("Payment initialization failed")))
  }

  /** `submit` as a function of the state it reads: the request sent, if
      any, and the action taken. */
  function SubmitOutcome(isLoggedIn: bool, agree: bool, slug: string, positions: int, phone: string, bio: string,
                         answer: Answer): (Option<FormRequest>, Action)
  {
    if !isLoggedIn then (None, Navigate(Str(SignInUrl(slug))))
    else if !agree then (None, NoAction)
    else (Some(RequestFor(slug, positions, phone, bio)), Respond(slug, answer))
  }

  class FormState {
    var positions: int
    var phone: string
    var bio: string
    var agree: bool
    var loading: bool

    constructor()
      ensures positions == 1 && phone == "" && bio == "" && !agree && !loading
    {
      positions := 1;
      phone := "";
      bio := "";
      agree := false;
      loading := false;
    }

    /** `submit`: `loading` is raised for the request and lowered in
        `finally`; an early return leaves it alone. The form's inputs are
        not touched. */
    method Submit(isLoggedIn: bool, slug: string, answer: Answer) returns (request: Option<FormRequest>, action: Action)
      modifies this
      ensures (request, action) == SubmitOutcome(isLoggedIn, old(agree), slug, old(positions), old(phone), old(bio), answer)
      ensures positions == old(positions) && phone == old(phone) && bio == old(bio) && agree == old(agree)
      ensures loading == if request.Some? then false else old(loading)
    {
      if !isLoggedIn {
        return None, Navigate(Str(SignInUrl(slug)));
      }
      if !agree {
        return None, NoAction;
      }
      loading := true;
      request := Some(RequestFor(slug, positions, phone, bio));
      action := Respond(slug, answer);
      loading := false;
    }
  }

  // ---------------------------------------------------------------------
  // Properties

  /** The total is the count times the price, and 0 when the price is 0 or
      not a number. */
  lemma TotalValue(positions: int, price: JsNumber)
    ensures price.Finite? ==> Total(positions, price) == Finite(positions as real * price.r)
    ensures price.NaN? ==> Total(positions, price) == Finite(0.0)
  {
  }

  /** The choices are exactly the whole numbers from 1 up to the available
      count; none when it is 0 or negative. */
  lemma OptionsExact(available: real, n: int)
    ensures n in PositionOptions(available) <==> 1 <= n && n as real <= available
    ensures available <= 0.0 ==> PositionOptions(available) == []
  {
    var r := PositionOptions(available);
    if 1 <= n && n as real <= available {
      assert n <= available.Floor;
      assert r[n - 1] == n;
    }
  }

  /** An enabled button means the user is signed in, has agreed, and has
      picked one of the offered counts. */
  lemma EnabledMeansOffered(loading: bool, agree: bool, positions: int, available: real, isLoggedIn: bool)
    requires !SubmitDisabled(loading, agree, positions, available, isLoggedIn)
    ensures isLoggedIn && agree && !loading
    ensures positions in PositionOptions(available)
  {
    OptionsExact(available, positions);
  }

  /** Signed out: off to sign-in, back to this book, and no request. */
  lemma LoggedOutRedirects(agree: bool, slug: string, positions: int, phone: string, bio: string, answer: Answer)
    ensures SubmitOutcome(false, agree, slug, positions, phone, bio, answer)
         == (None, Navigate(Str("/auth/sign-in?next=/books/" + slug)))
  {
  }

  /** Without agreement nothing happens and nothing is sent. */
  lemma DisagreeSendsNothing(slug: string, positions: int, phone: string, bio: string, answer: Answer)
    ensures SubmitOutcome(true, false, slug, positions, phone, bio, answer) == (None, NoAction)
  {
  }

  /** The posted count is the decimal text of the chosen count, which the
      server's `Number(...)` and `parseInt(...)` both read back exactly. */
  lemma PositionsFieldRoundTrip(slug: string, positions: int, phone: string, bio: string, answer: Answer)
    ensures var (request, _) := SubmitOutcome(true, true, slug, positions, phone, bio, answer);
      && request.Some?
      && StringToNumber(request.value.positionsField) == Finite(positions as real)
      && ParseInt(request.value.positionsField) == Finite(positions as real)
  {
    NumberOfIntText(positions);
    ParseIntOfIntText(positions);
  }

  /** The answer decides: an OK response with a `null` body fails with the
      runtime's TypeError; an OK response with a checkout URL goes there;
      otherwise a 401 goes to sign-in; otherwise the server's error, or the
      generic text, is shown. A `null` body on a failed response goes to
      sign-in on 401 and shows the generic text otherwise. */
  lemma ResponseHandling(slug: string, ok: bool, status: int, json: JsValue)
    ensures var a := Respond(slug, Responded(ok, status, json));
      && (ok && IsNullish(json) ==> a == RuntimeAlert)
      && (ok && Truthy(Get(json, "checkoutUrl")) ==> a == Navigate(Get(json, "checkoutUrl")))
      && (!(ok && IsNullish(json)) && !(ok && Truthy(Get(json, "checkoutUrl"))) && status == 401 ==>
           a == Navigate(Str(SignInUrl(slug))))
      && (!(ok && IsNullish(json)) && !(ok && Truthy(Get(json, "checkoutUrl"))) && status != 401 ==>
           a == Alert(if Truthy(Get(json, "error")) then Get(json, "error") else Str("Payment initialization failed")))
    ensures !ok && json == Null ==>
      Respond(slug, Responded(ok, status, json))
        == if status == 401 then Navigate(Str(SignInUrl(slug))) else Alert(Str("Payment initialization failed"))
  {
  }
}
