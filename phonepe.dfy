/** What the PhonePe handlers share: the environment variables they read,
    the foreign functions they call (SHA-256, base64, `JSON.stringify`,
    number formatting), the X-VERIFY checksum layout, and the shape of an
    outgoing request and of its answer. */
module PhonePe {
  import opened JsValues
  import opened Tables

  /** The `PHONEPE_*` and `NEXT_PUBLIC_BASE_URL` variables, `None` when unset. */
  datatype Env = Env(
    merchantId: Option<string>,
    saltKey: Option<string>,
    saltIndex: Option<string>,
    baseUrl: Option<string>,
    publicBaseUrl: Option<string>)

  /** `!!process.env.X`: set and not empty. */
  predicate EnvSet(x: Option<string>) {
    x.Some? && x.value != ""
  }

  /** The variable inside a template literal or after `+`: an unset one is
      written `undefined`. */
  function EnvText(x: Option<string>): string {
    if x.Some? then x.value else "undefined"
  }

  /** The variable as a property value of an object literal. */
  function EnvJson(x: Option<string>): JsValue {
    if x.Some? then Str(x.value) else Undefined
  }

  /** `x || fallback` on a variable. */
  function EnvOr(x: Option<string>, fallback: string): string {
    if EnvSet(x) then x.value else fallback
  }

  /** The functions the handlers call but that are not part of this model:
      the hex digest of SHA-256 (FIPS 180-4), base64 of the UTF-8 bytes
      (section 4 of RFC 4648), `JSON.stringify`, and Number::toString. */
  datatype Foreign = Foreign(
    sha256hex: string -> string,
    base64: string -> string,
    stringify: JsValue -> string,
    numberText: real -> string)

  /** The X-VERIFY header: digest of the message, `###`, the salt index. */
  function XVerify(sha256hex: string -> string, message: string, saltIndex: string): (r: string)
    ensures |r| == |sha256hex(message)| + 3 + |saltIndex|
    ensures r[..|sha256hex(message)|] == sha256hex(message)
    ensures r[|sha256hex(message)|..|sha256hex(message)| + 3] == "###"
    ensures r[|r| - |saltIndex|..] == saltIndex
  {
    sha256hex(message) + "###" + saltIndex
  }

  /** For digests of one length (a SHA-256 hex digest is always 64
      characters), the header determines the digest and the salt index:
      two headers are equal exactly when both parts are. */
  lemma XVerifySplits(sha256hex: string -> string, m1: string, s1: string, m2: string, s2: string)
    requires |sha256hex(m1)| == |sha256hex(m2)|
    ensures XVerify(sha256hex, m1, s1) == XVerify(sha256hex, m2, s2)
        <==> sha256hex(m1) == sha256hex(m2) && s1 == s2
  {
    var r1 := XVerify(sha256hex, m1, s1);
    var r2 := XVerify(sha256hex, m2, s2);
    var d := |sha256hex(m1)|;
    if r1 == r2 {
      assert sha256hex(m1) == r1[..d] == r2[..d] == sha256hex(m2);
      assert s1 == r1[d + 3..] == r2[d + 3..] == s2;
    }
  }

  /** The lookup of a header by name, first match wins. */
  function Header(headers: seq<(string, string)>, name: string): Option<string> {
    if |headers| == 0 then None
    else if headers[0].0 == name then Some(headers[0].1)
    else Header(headers[1..], name)
  }

  /** A request handed to `fetch`. */
  datatype Request = Request(verb: string, url: string, headers: seq<(string, string)>, body: Option<string>)

  /** What `fetch` and `resp.json()` gave: `fetch` threw, or an answer with
      its `ok` flag and its parsed JSON body (`None` when `resp.json()`
      threw). */
  datatype FetchResult = Threw | Answered(ok: bool, json: Option<JsValue>)

  /** The JSON value of an answer, when there is one. */
  predicate HasJson(f: FetchResult) {
    f.Answered? && f.json.Some?
  }

  /** The paths of the two PhonePe endpoints. */
  const PayPath := "/pg/v1/pay"

  function StatusPath(merchantId: string, mtid: string): string {
    "/pg/v1/status/" + merchantId + "/" + mtid
  }
}
