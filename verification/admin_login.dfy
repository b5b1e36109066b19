/**
 * The two admin login pages: the phone and code checks, the login gate that
 * checks the phone before the code, the SMS request with its countdown,
 * the login answer saved in storage and in `globalData`, and the
 * sub-package page that logs in without asking anything.
 */
module AdminLogin {
  import opened Wrappers
  import opened JsValue
  import opened Text
  import I18n
  import AppState
  import Countdown
  import MockApi
  import Http

  // ---------------------------------------------------------------------
  // The checks.

  /** `/^1[3-9]\d{9}$/`: eleven ASCII digits, a one, then a digit from three to nine. */
  predicate PhonePattern(p: string) {
    |p| == 11 && p[0] == '1' && '3' <= p[1] <= '9' && forall i :: 2 <= i < 11 ==> IsDigit(p[i])
  }

  /** `validatePhone`: an empty phone fails, then the pattern decides. */
  function ValidPhone(p: string): (ok: bool)
  {
    if p == "" then false else PhonePattern(p)
  }

  /** `validateCode`: an empty code fails, then the code must be six characters long, whatever they are. */
  function ValidCode(c: string): (ok: bool)
  {
    if c == "" then false else |c| == 6
  }

  function Pow10(n: nat): (r: nat)
    ensures r >= 1
  {
    if n == 0 then 1 else 10 * Pow10(n - 1)
  }

  /** A run of `n` digits is worth less than `10^n`. */
  lemma {:induction false} DigitsBelow(s: string)
    requires forall i :: 0 <= i < |s| ==> IsDigit(s[i])
    ensures DigitsValue(s) < Pow10(|s|)
    decreases |s|
  {
    if s != [] {
      DigitsBelow(s[..|s| - 1]);
    }
  }

  /** The value of two runs of digits side by side. */
  lemma {:induction false} DigitsConcat(a: string, b: string)
    requires forall i :: 0 <= i < |a| ==> IsDigit(a[i])
    requires forall i :: 0 <= i < |b| ==> IsDigit(b[i])
    ensures forall i :: 0 <= i < |a + b| ==> IsDigit((a + b)[i])
    ensures DigitsValue(a + b) == DigitsValue(a) * Pow10(|b|) + DigitsValue(b)
    decreases |b|
  {
    if b == [] {
      assert a + b == a;
    } else {
      var b' := b[..|b| - 1];
      var d := DigitValue(b[|b| - 1]);
      assert (a + b)[..|a + b| - 1] == a + b';
      assert (a + b)[|a + b| - 1] == b[|b| - 1];
      DigitsConcat(a, b');
      assert DigitsValue(a + b) == DigitsValue(a + b') * 10 + d;
      assert DigitsValue(b) == DigitsValue(b') * 10 + d;
      ShiftDigit(DigitsValue(a), Pow10(|b'|), DigitsValue(b'), d);
    }
  }

  /** Appending a digit to `x * p + y` multiplies both parts' weight by ten. */
  lemma ShiftDigit(x: nat, p: nat, y: nat, d: nat)
    ensures (x * p + y) * 10 + d == x * (10 * p) + (y * 10 + d)
  {
  }

  /** Every accepted phone reads, as a number, as one of the mobile numbers from 13000000000 up to 19999999999. */
  lemma ValidPhoneRange(p: string)
    requires ValidPhone(p)
    ensures ParseInt(p) == Some(DigitsValue(p))
    ensures 13000000000 <= DigitsValue(p) < 20000000000
  {
    var head, tail := p[..2], p[2..];
    assert p == head + tail;
    assert forall i :: 0 <= i < |tail| ==> IsDigit(tail[i]);
    assert head[..1] == "1" && head[1] == p[1];
    assert DigitsValue("1") == 1 by {
      assert "1"[..0] == [];
    }
    assert DigitsValue(head) == 10 + DigitValue(p[1]);
    DigitsConcat(head, tail);
    DigitsBelow(tail);
    assert Pow10(9) == 1000000000;
  }

  /** A mainland mobile number passes; a second digit below three, a digit short or an empty phone fail. */
  lemma ValidPhoneExamples()
    ensures ValidPhone("13800138000")
    ensures !ValidPhone("12800138000") && !ValidPhone("1380013800") && !ValidPhone("")
  {
  }

  lemma ValidCodeIsLength(c: string)
    ensures ValidCode(c) <==> |c| == 6
  {
  }

  // ---------------------------------------------------------------------
  // The form and the login gate.

  /** The form part of the page's data. */
  datatype Form = Form(phone: string, code: string, phoneError: string, codeError: string, codeSent: bool, loading: bool)

  const EmptyForm := Form("", "", "", "", false, false)

  function PhoneError(r: I18n.Registry): string {
    I18n.T(r, "admin.login.phone.error", [])
  }

  function CodeError(r: I18n.Registry): string {
    I18n.T(r, "admin.login.code.error", [])
  }

  /** `onPhoneInput` and `onCodeInput`: the field takes the input and its error is cleared. */
  function PhoneInput(f: Form, v: string): (g: Form) {
    f.(phone := v, phoneError := "")
  }

  function CodeInput(f: Form, v: string): (g: Form) {
    f.(code := v, codeError := "")
  }

  /**
   * `login`'s gate: `!validatePhone(phone) || !validateCode(code)`. A bad
   * phone sets its error and the code is not looked at; a good phone with a
   * bad code sets the code's error; otherwise the request starts.
   */
  function LoginGate(f: Form, r: I18n.Registry): (o: (Form, bool))
  {
    if !ValidPhone(f.phone) then (f.(phoneError := PhoneError(r)), false)
    else if !ValidCode(f.code) then (f.(codeError := CodeError(r)), false)
    else (f.(loading := true), true)
  }

  /** The request goes out exactly for a valid phone and code; a bad phone leaves the code's error as it was. */
  lemma LoginGateShortCircuits(f: Form, r: I18n.Registry)
    ensures LoginGate(f, r).1 <==> ValidPhone(f.phone) && ValidCode(f.code)
    ensures !ValidPhone(f.phone) ==> LoginGate(f, r).0.codeError == f.codeError && LoginGate(f, r).0.phoneError == PhoneError(r)
    ensures ValidPhone(f.phone) && !ValidCode(f.code) ==> LoginGate(f, r).0.codeError == CodeError(r)
    ensures LoginGate(f, r).1 ==> LoginGate(f, r).0 == f.(loading := true)
  {
  }

  /** Typing a valid phone and code and logging in starts the request with no error showing. */
  lemma TypedLoginStarts(f: Form, r: I18n.Registry, phone: string, code: string)
    requires ValidPhone(phone) && ValidCode(code)
    ensures var g := CodeInput(PhoneInput(f, phone), code);
      LoginGate(g, r).1 && LoginGate(g, r).0.phoneError == "" && LoginGate(g, r).0.codeError == ""
  {
  }

  /** `sendSmsCode`: a bad phone sets its error; a sent code starts the countdown and marks the code sent; a failed request changes nothing. */
  function SendSms(f: Form, s: Countdown.Sms, r: I18n.Registry, requestOk: bool): (o: (Form, Countdown.Sms, bool))
  {
    if !ValidPhone(f.phone) then (f.(phoneError := PhoneError(r)), s, false)
    else if !requestOk then (f, s, true)
    else (f.(codeSent := true), Countdown.Start(s), true)
  }

  /** A code is requested exactly for a valid phone, and the countdown runs exactly after a sent code. */
  lemma SendSmsGate(f: Form, s: Countdown.Sms, r: I18n.Registry, requestOk: bool)
    ensures SendSms(f, s, r, requestOk).2 <==> ValidPhone(f.phone)
    ensures SendSms(f, s, r, requestOk).0.codeSent <==> f.codeSent || (ValidPhone(f.phone) && requestOk)
    ensures ValidPhone(f.phone) && requestOk ==> SendSms(f, s, r, requestOk).1 == Countdown.Sms(Countdown.SmsStart, true)
    ensures !(ValidPhone(f.phone) && requestOk) ==> SendSms(f, s, r, requestOk).1 == s
  {
  }

  /**
   * `sendSmsCode` as written in the sub-package page: it calls
   * `adminApi.getSmsCode` on the mock server, whose `adminApi` lacks it, so
   * the call throws into the `catch` whatever the server would answer.
   */
  function SendSmsMock(f: Form, s: Countdown.Sms, r: I18n.Registry, requestOk: bool): (o: (Form, Countdown.Sms, bool))
  {
    SendSms(f, s, r, MockApi.AdminCallAnswers("getSmsCode", requestOk))
  }

  /**
   * `sendSmsCode` in the main-package page, behind the request module: only
   * a promise that resolves reaches the countdown.
   */
  function SendSmsThrough(f: Form, s: Countdown.Sms, r: I18n.Registry, settled: Http.Settlement): (o: (Form, Countdown.Sms, bool))
  {
    SendSms(f, s, r, settled.Resolved?)
  }

  /**
   * As written, neither login page ever marks a code sent or starts the
   * countdown: the form changes only by the phone error and the countdown
   * not at all. With a request that succeeds, a valid phone does both.
   */
  lemma SmsNeverMarkedSent(f: Form, s: Countdown.Sms, r: I18n.Registry, requestOk: bool, resp: Http.Response)
    ensures SendSmsMock(f, s, r, requestOk).0 == if ValidPhone(f.phone) then f else f.(phoneError := PhoneError(r))
    ensures SendSmsMock(f, s, r, requestOk).1 == s
    ensures SendSmsThrough(f, s, r, Http.SettleAsWritten(resp)) == SendSmsMock(f, s, r, requestOk)
    ensures ValidPhone(f.phone) && !f.codeSent ==> !SendSmsMock(f, s, r, requestOk).0.codeSent && SendSms(f, s, r, true).0.codeSent
  {
    MockApi.MissingAdminMethods(requestOk);
    Http.AsWrittenNeverResolves(resp);
  }

  // ---------------------------------------------------------------------
  // A successful login.

  const AdminTokenKey: string := "adminToken"
  const AdminInfoKey: string := "adminInfo"

  /** The answer of `adminApi.login` saved: the token and the admin's record in storage and in `globalData`, the role `'admin'`. */
  function LoginSuccess(a: AppState.App, token: Value, adminInfo: Value): (b: AppState.App)
  {
    AppState.App(
      a.data.(token := token, userInfo := adminInfo, isLogin := true, userId := Field(adminInfo, "adminId"), userRole := "admin"),
      a.storage[AdminTokenKey := token][AdminInfoKey := adminInfo])
  }

  /** The record the sub-package page logs in with. */
  const DirectAdminInfo: Value := Obj(map["adminId" := Str("admin"), "name" := Str("管理员"), "phone" := Str("admin")])

  /** The sub-package `login`: no check at all, a fixed token and record. */
  function DirectLogin(a: AppState.App): (b: AppState.App)
  {
    LoginSuccess(a, Str("admin_token"), DirectAdminInfo)
  }

  /** The direct login always makes an admin with id `'admin'`, stored under the admin keys and nowhere else. */
  lemma DirectLoginEffects(a: AppState.App)
    ensures var b := DirectLogin(a);
      && b.data.isLogin && b.data.userRole == "admin" && b.data.userId == Str("admin")
      && b.data.token == Str("admin_token")
      && Load(b.storage, AdminTokenKey) == Str("admin_token")
      && (forall k :: k in a.storage && k !in {AdminTokenKey, AdminInfoKey} ==> k in b.storage && b.storage[k] == a.storage[k])
      && b.data.currentStore == a.data.currentStore
  {
  }

  /**
   * The admin keys are not the keys `checkLoginStatus` reads: after a
   * restart an admin login is forgotten unless a member's login was stored
   * before.
   */
  lemma AdminLoginNotRestored(a: AppState.App, token: Value, adminInfo: Value)
    requires AppState.TokenKey !in a.storage
    ensures AppState.CheckLoginStatus(AppState.App(AppState.Initial(), LoginSuccess(a, token, adminInfo).storage)).data
      == AppState.Initial()
  {
    var st := LoginSuccess(a, token, adminInfo).storage;
    assert AppState.TokenKey !in st;
  }
}
