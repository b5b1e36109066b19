/**
 * The global state of `app.ts`: login status restored from storage, the
 * success branch of the WeChat login, logout and the store switch. Storage
 * is threaded through explicitly.
 */
module AppState {
  import opened JsValue

  const TokenKey: string := "token"
  const UserInfoKey: string := "userInfo"
  const CurrentStoreKey: string := "currentStore"

  /** `globalData` (the fields the logic touches; values read from storage keep their JavaScript type). */
  datatype GlobalData = GlobalData(
    userInfo: Value,
    token: Value,
    currentStore: string,
    isLogin: bool,
    userId: Value,
    userRole: string)

  /** The app's state and its storage. */
  datatype App = App(data: GlobalData, storage: Storage)

  /** The initial `globalData`. */
  const InitialData: GlobalData := GlobalData(Undefined, Str(""), "南山店", false, Str(""), "student")

  /** A fresh app: not logged in, empty token and user id, the first store, a student. */
  function Initial(): (g: GlobalData)
    ensures !g.isLogin && g.token == Str("") && g.userId == Str("") && g.userInfo == Undefined
    ensures g.currentStore == "南山店" && g.userRole == "student"
  {
    InitialData
  }

  /** `checkLoginStatus`: log in from storage when both a token and user info are stored. */
  function CheckLoginStatus(a: App): (b: App)
    ensures b.storage == a.storage
    ensures var token := Load(a.storage, TokenKey);
      var info := Load(a.storage, UserInfoKey);
      if Truthy(token) && Truthy(info) then
        && b.data.isLogin && b.data.token == token && b.data.userInfo == info
        && (Truthy(Field(info, "userId")) ==> b.data.userId == Field(info, "userId"))
        && (!Truthy(Field(info, "userId")) ==> b.data.userId == Str(""))
        && b.data.currentStore == a.data.currentStore && b.data.userRole == a.data.userRole
      else b == a
  {
    var token := Load(a.storage, TokenKey);
    var info := Load(a.storage, UserInfoKey);
    if Truthy(token) && Truthy(info) then
      App(a.data.(token := token, userInfo := info, isLogin := true, userId := Or(Field(info, "userId"), Str(""))), a.storage)
    else a
  }

  /**
   * The success branch of `wxLoginWithUserInfo` for a server response
   * `res`: the app afterwards, and whether the promise resolves. The
   * callback throws, and the promise rejects, at `res.token` when there is
   * no response (before anything is written) and at `res.userInfo.userId`
   * when there is no user info (after the writes, before the user id).
   */
  function LoginSuccess(a: App, res: Value): (r: (App, bool))
    ensures Nullish(res) ==> r == (a, false)
    ensures !Nullish(res) ==>
      var b := r.0;
      && b.storage == a.storage[TokenKey := Field(res, "token")][UserInfoKey := Field(res, "userInfo")]
      && b.data.isLogin
      && b.data.token == Field(res, "token") && b.data.userInfo == Field(res, "userInfo")
      && b.data.currentStore == a.data.currentStore && b.data.userRole == a.data.userRole
    ensures r.1 <==> !Nullish(res) && !Nullish(Field(res, "userInfo"))
    ensures r.1 ==> r.0.data.userId == Field(Field(res, "userInfo"), "userId")
    ensures !r.1 ==> r.0.data.userId == a.data.userId
  {
    if Nullish(res) then (a, false)
    else
      var token := Field(res, "token");
      var info := Field(res, "userInfo");
      var written := App(a.data.(token := token, userInfo := info, isLogin := true), a.storage[TokenKey := token][UserInfoKey := info]);
      if Nullish(info) then (written, false)
      else (written.(data := written.data.(userId := Field(info, "userId"))), true)
  }

  /** `logout`: forget the token and user info, in memory and in storage. */
  function Logout(a: App): (b: App)
    ensures TokenKey !in b.storage && UserInfoKey !in b.storage
    ensures forall k :: k in a.storage && k != TokenKey && k != UserInfoKey ==> k in b.storage && b.storage[k] == a.storage[k]
    ensures forall k :: k in b.storage ==> k in a.storage
    ensures !b.data.isLogin && b.data.token == Str("") && b.data.userInfo == Undefined && b.data.userId == Str("")
    ensures b.data.currentStore == a.data.currentStore && b.data.userRole == a.data.userRole
  {
    App(a.data.(token := Str(""), userInfo := Undefined, isLogin := false, userId := Str("")),
        a.storage - {TokenKey, UserInfoKey})
  }

  /** `switchStore`: the store in memory and in storage agree afterwards. */
  function SwitchStore(a: App, name: string): (b: App)
    ensures b.data == a.data.(currentStore := name)
    ensures b.storage == a.storage[CurrentStoreKey := Str(name)]
  {
    App(a.data.(currentStore := name), a.storage[CurrentStoreKey := Str(name)])
  }

  /**
   * The store chosen is written to storage but never read back: a
   * restarted app shows the first store again, whatever was chosen.
   */
  lemma SwitchedStoreNotRestored(a: App, name: string)
    ensures Load(SwitchStore(a, name).storage, CurrentStoreKey) == Str(name)
    ensures CheckLoginStatus(App(Initial(), SwitchStore(a, name).storage)).data.currentStore == "南山店"
    ensures SwitchStore(SwitchStore(a, name), a.data.currentStore).data == a.data
  {
  }

  /** A login survives a restart: a fresh app restores the same token and user when both are truthy. */
  lemma LoginSurvivesRestart(a: App, res: Value)
    requires Truthy(Field(res, "token")) && Truthy(Field(res, "userInfo"))
    ensures LoginSuccess(a, res).1
    ensures var b := CheckLoginStatus(App(Initial(), LoginSuccess(a, res).0.storage));
      b.data.isLogin && b.data.token == Field(res, "token") && b.data.userInfo == Field(res, "userInfo")
  {
    var st := LoginSuccess(a, res).0.storage;
    assert Load(st, TokenKey) == Field(res, "token");
    assert Load(st, UserInfoKey) == Field(res, "userInfo");
  }

  /**
   * A response without a truthy token does not survive a restart: the
   * fresh app stays logged out. No response at all writes nothing.
   */
  lemma EmptyTokenDoesNotSurvive(a: App, res: Value)
    requires !Truthy(Field(res, "token"))
    ensures !Nullish(res) ==> CheckLoginStatus(App(Initial(), LoginSuccess(a, res).0.storage)).data == Initial()
    ensures Nullish(res) ==> LoginSuccess(a, res).0.storage == a.storage
  {
    var st := LoginSuccess(a, res).0.storage;
    if !Nullish(res) {
      assert Load(st, TokenKey) == Field(res, "token");
    }
  }

  /**
   * A response with a token but no user info rejects the login after the
   * writes: in memory the app counts as logged in with the previous user
   * id, and a restart restores nobody.
   */
  lemma MissingUserInfoRejects(a: App, res: Value)
    requires Truthy(Field(res, "token")) && Nullish(Field(res, "userInfo"))
    ensures !LoginSuccess(a, res).1
    ensures LoginSuccess(a, res).0.data.isLogin && LoginSuccess(a, res).0.data.userId == a.data.userId
    ensures CheckLoginStatus(App(Initial(), LoginSuccess(a, res).0.storage)).data == Initial()
  {
    var st := LoginSuccess(a, res).0.storage;
    assert Load(st, UserInfoKey) == Field(res, "userInfo");
  }

  /** After a logout, a restart finds nobody logged in. */
  lemma LogoutSurvivesRestart(a: App)
    ensures CheckLoginStatus(App(Initial(), Logout(a).storage)).data == Initial()
  {
    assert Load(Logout(a).storage, TokenKey) == Str("");
  }

  /** Logging in and then out leaves the storage as it was, apart from the two login keys. */
  lemma LoginLogout(a: App, res: Value)
    ensures Logout(LoginSuccess(a, res).0).storage == a.storage - {TokenKey, UserInfoKey}
    ensures Logout(LoginSuccess(a, res).0).data == Logout(a).data
  {
  }
}
