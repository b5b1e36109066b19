/**
 * The request layer of `utils/api.ts`: the query string `get` appends,
 * the headers the request interceptor sets, the response interceptor's
 * verdict, and the messages (and the logout) of the HTTP error handler.
 * `encodeURIComponent` is a parameter: any function from strings to strings.
 */
module Http {
  import opened Wrappers
  import opened Text
  import opened JsValue
  import AppState

  const BaseUrl: string := "https://api.icon-dance.com"
  const DefaultTimeout: int := 10000

  // ---------------------------------------------------------------------
  // Query strings.

  /** One `key=encodeURIComponent(value)` pair; the key is used verbatim. */
  function QueryPair(key: string, value: Value, enc: string -> string): string {
    key + "=" + enc(ToStr(value))
  }

  /** The pairs of a params object, in key order. */
  function QueryPairs(params: seq<(string, Value)>, enc: string -> string): (ps: seq<string>)
    ensures |ps| == |params|
    ensures forall i :: 0 <= i < |params| ==> ps[i] == QueryPair(params[i].0, params[i].1, enc)
  {
    seq(|params|, i requires 0 <= i < |params| => QueryPair(params[i].0, params[i].1, enc))
  }

  /** The URL `get` requests: no params leaves it alone, a params object (even an empty one) adds `?` and the joined pairs. */
  function GetUrl(url: string, params: Option<seq<(string, Value)>>, enc: string -> string): (r: string)
    ensures params.None? ==> r == url
    ensures params.Some? ==> r == url + "?" + Join(QueryPairs(params.value, enc), "&")
  {
    if params.None? then url else url + "?" + Join(QueryPairs(params.value, enc), "&")
  }

  /** An empty params object still adds a bare `?`. */
  lemma EmptyParams(url: string, enc: string -> string)
    ensures GetUrl(url, Some([]), enc) == url + "?"
  {
  }

  /**
   * When keys hold neither `&` nor `=` and the encoder never produces them
   * (as `encodeURIComponent` does not), splitting the query at `&` and each
   * pair at `=` gives back every key and its encoded value, in order.
   */
  lemma QueryRoundTrip(params: seq<(string, Value)>, enc: string -> string)
    requires |params| > 0
    requires forall i :: 0 <= i < |params| ==> '&' !in params[i].0 && '=' !in params[i].0
    requires forall s :: '&' !in enc(s) && '=' !in enc(s)
    ensures var pieces := Split(Join(QueryPairs(params, enc), "&"), '&');
      && |pieces| == |params|
      && forall i :: 0 <= i < |params| ==> Split(pieces[i], '=') == [params[i].0, enc(ToStr(params[i].1))]
  {
    var ps := QueryPairs(params, enc);
    forall k | 0 <= k < |ps|
      ensures '&' !in ps[k]
    {
      assert ps[k] == params[k].0 + "=" + enc(ToStr(params[k].1));
    }
    SplitJoin(ps, '&');
    forall i | 0 <= i < |params|
      ensures Split(ps[i], '=') == [params[i].0, enc(ToStr(params[i].1))]
    {
      var kv := [params[i].0, enc(ToStr(params[i].1))];
      assert Join(kv, "=") == ps[i] by {
        assert kv[1..] == [kv[1]];
      }
      SplitJoin(kv, '=');
    }
  }

  // ---------------------------------------------------------------------
  // Request interceptor and request options.

  /** The `Authorization` header: `Bearer <token>` when some token is known, else empty. */
  function Authorization(globalToken: Value, st: Storage): (h: string)
    ensures Truthy(globalToken) ==> h == "Bearer " + ToStr(globalToken)
    ensures !Truthy(globalToken) && Truthy(Load(st, "token")) ==> h == "Bearer " + ToStr(Load(st, "token"))
    ensures !Truthy(globalToken) && !Truthy(Load(st, "token")) ==> h == ""
  {
    var token := Or(globalToken, Load(st, "token"));
    if Truthy(token) then "Bearer " + ToStr(token) else ""
  }

  /** The headers sent: the two defaults, then the caller's headers spread over them. */
  function Headers(globalToken: Value, st: Storage, caller: map<string, string>): (h: map<string, string>)
    ensures h.Keys == {"Content-Type", "Authorization"} + caller.Keys
    ensures forall k :: k in caller ==> h[k] == caller[k]
    ensures "Content-Type" !in caller ==> h["Content-Type"] == "application/json"
    ensures "Authorization" !in caller ==> h["Authorization"] == Authorization(globalToken, st)
  {
    map["Content-Type" := "application/json", "Authorization" := Authorization(globalToken, st)] + caller
  }

  /** The loading indicator shows unless `loading` is exactly `false`. */
  predicate ShowsLoading(loading: Value) {
    loading != Bool(false)
  }

  /** The address and timeout `request` hands to `wx.request`. */
  datatype WireRequest = WireRequest(url: string, timeout: int)

  function Wire(path: string, timeout: Option<int>): (w: WireRequest)
    ensures StartsWith(w.url, BaseUrl) && w.url[|BaseUrl|..] == path
    ensures timeout.None? || timeout.value == 0 ==> w.timeout == DefaultTimeout
    ensures timeout.Some? && timeout.value != 0 ==> w.timeout == timeout.value
  {
    var t := if timeout.Some? && timeout.value != 0 then timeout.value else DefaultTimeout;
    WireRequest(BaseUrl + path, t)
  }

  // ---------------------------------------------------------------------
  // Response interceptor.

  /** The HTTP response fields the interceptor reads. */
  datatype Response = Response(statusCode: int, data: Value)

  /**
   * The interceptor's verdict: reject with a message, accept with the
   * payload, or throw (reading `data.code` of a `null` or missing body).
   */
  datatype Verdict = Reject(message: string) | Accept(payload: Value) | Throws

  /** `responseInterceptor`: HTTP status first, then the business code, then the payload. */
  function Intercept(r: Response): (v: Verdict)
    ensures r.statusCode != 200 ==> v == Reject("HTTP Error: " + IntToString(r.statusCode))
    ensures v.Throws? <==> r.statusCode == 200 && Nullish(r.data)
    ensures r.statusCode == 200 && !Nullish(r.data) && Field(r.data, "code") != Num(0) ==>
      v.Reject? && (Truthy(Field(r.data, "message")) ==> v.message == ToStr(Field(r.data, "message")))
      && (!Truthy(Field(r.data, "message")) ==> v.message == "请求失败")
    ensures v.Accept? <==> r.statusCode == 200 && Field(r.data, "code") == Num(0)
    ensures v.Accept? ==> v.payload == Field(r.data, "data")
  {
    if r.statusCode != 200 then Reject("HTTP Error: " + IntToString(r.statusCode))
    else if Nullish(r.data) then Throws
    else if Field(r.data, "code") != Num(0) then Reject(ToStr(Or(Field(r.data, "message"), Str("请求失败"))))
    else Accept(Field(r.data, "data"))
  }

  /** How the promise `request` returns ends up. */
  datatype Settlement = Resolved(value: Value) | Rejected(reason: string) | NeverSettles

  /**
   * `request`'s success callback as written: it calls `.then` on what the
   * interceptor returns. A rejection is a promise, so it propagates; an
   * accepted payload is a plain JSON value with no `then` method, the call
   * throws inside the callback, and the caller's promise never settles.
   * An interceptor that throws leaves it unsettled too.
   */
  function SettleAsWritten(r: Response): (s: Settlement)
    ensures Intercept(r).Reject? ==> s == Rejected(Intercept(r).message)
    ensures !Intercept(r).Reject? ==> s == NeverSettles
  {
    match Intercept(r)
    case Reject(m) => Rejected(m)
    case Accept(_) => NeverSettles
    case Throws => NeverSettles
  }

  /**
   * The evidently intended settlement: the payload resolves the promise.
   * A body of `null` still throws inside the callback, so that request
   * still never settles.
   */
  function Settle(r: Response): (s: Settlement)
    ensures s.Resolved? <==> r.statusCode == 200 && Field(r.data, "code") == Num(0)
    ensures s.Resolved? ==> s.value == Field(r.data, "data")
    ensures s.Rejected? <==> Intercept(r).Reject?
    ensures s == NeverSettles <==> r.statusCode == 200 && Nullish(r.data)
  {
    match Intercept(r)
    case Reject(m) => Rejected(m)
    case Accept(p) => Resolved(p)
    case Throws => NeverSettles
  }

  /** A successful response shows the discrepancy: as written the request hangs, as intended it resolves. */
  lemma SuccessNeverResolves()
    ensures var ok := Response(200, Obj(map["code" := Num(0), "data" := Str("x")]));
      SettleAsWritten(ok) == NeverSettles && Settle(ok) == Resolved(Str("x"))
  {
    var ok := Response(200, Obj(map["code" := Num(0), "data" := Str("x")]));
    assert Field(ok.data, "code") == Num(0);
  }

  /** As written, no response at all resolves the promise: only rejections come through. */
  lemma AsWrittenNeverResolves(r: Response)
    ensures !SettleAsWritten(r).Resolved?
    ensures SettleAsWritten(r) == Settle(r) <==> !Intercept(r).Accept?
  {
  }

  /** A 200 response without a body throws in the interceptor: no version of the request settles, while any other body settles the corrected one. */
  lemma NullBodyNeverSettles(r: Response)
    requires r.statusCode == 200
    ensures Nullish(r.data) ==> SettleAsWritten(r) == NeverSettles && Settle(r) == NeverSettles
    ensures !Nullish(r.data) ==> Settle(r) != NeverSettles
  {
  }

  // ---------------------------------------------------------------------
  // HTTP errors.

  /** The message `handleHttpError` shows for a status code. */
  function HttpErrorMessage(code: int): (m: string)
  {
    match code
    case 401 => "未授权，请重新登录"
    case 403 => "拒绝访问"
    case 404 => "请求资源不存在"
    case 500 => "服务器内部错误"
    case 502 => "网关错误"
    case 503 => "服务不可用"
    case 504 => "网关超时"
    case _ => "网络错误 (" + IntToString(code) + ")"
  }

  /** The seven status codes with a message of their own. */
  predicate KnownStatus(code: int) {
    code in {401, 403, 404, 500, 502, 503, 504}
  }

  const DefaultPrefix: string := "网络错误 ("

  /** Only unknown codes get the generic message, and it carries the code: reading the digits back gives the code. */
  lemma {:induction false} GenericMessageCarriesCode(code: nat)
    ensures !KnownStatus(code) ==>
      (StartsWith(HttpErrorMessage(code), DefaultPrefix)
       && DigitsValue(HttpErrorMessage(code)[|DefaultPrefix|..|HttpErrorMessage(code)| - 1]) == code)
    ensures KnownStatus(code) ==> !StartsWith(HttpErrorMessage(code), DefaultPrefix)
  {
    var m := HttpErrorMessage(code);
    if !KnownStatus(code) {
      var digits := NatToString(code);
      assert IntToString(code) == digits;
      assert m == DefaultPrefix + digits + ")";
      assert m[|DefaultPrefix|..|m| - 1] == digits;
      NatToStringRoundTrip(code);
    } else {
      assert |m| < |DefaultPrefix| || m[1] != DefaultPrefix[1];
    }
  }

  /** `handleHttpError`: the message shown, and the app afterwards; only 401 logs the user out. */
  function HandleHttpError(a: AppState.App, code: int): (r: (AppState.App, string))
    ensures r.1 == HttpErrorMessage(code)
    ensures code == 401 ==> r.0 == AppState.Logout(a)
    ensures code != 401 ==> r.0 == a
  {
    (if code == 401 then AppState.Logout(a) else a, HttpErrorMessage(code))
  }

  /**
   * A 401 ends the session for good: the app is logged out and a restart
   * finds nobody logged in. Any other status leaves the app as it was.
   */
  lemma UnauthorizedEndsSession(a: AppState.App, code: int)
    ensures code == 401 ==> !HandleHttpError(a, code).0.data.isLogin
    ensures code == 401 ==>
      AppState.CheckLoginStatus(AppState.App(AppState.Initial(), HandleHttpError(a, code).0.storage)).data == AppState.Initial()
    ensures code != 401 ==> HandleHttpError(a, code).0 == a
    ensures KnownStatus(code) <==> !StartsWith(HandleHttpError(a, code).1, DefaultPrefix)
  {
    AppState.LogoutSurvivesRestart(a);
    if code >= 0 {
      GenericMessageCarriesCode(code);
    } else {
      assert HttpErrorMessage(code) == DefaultPrefix + IntToString(code) + ")";
    }
  }
}
