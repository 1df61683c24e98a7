/** The session of app.js: the globals `authToken` and `currentUser`, the
    two localStorage keys behind them, and which screen is showing. */
module AppSession {
  import opened Wrappers

  const TokenKey := "authToken"
  const UsernameKey := "username"

  /** The auth modal or the app itself. */
  datatype Screen = AuthModal | AppScreen

  /** Which of the two forms the auth modal shows. */
  datatype Form = LoginForm | SignupForm

  /** Everything the session operations read or write. `currentUser` holds
      the username of the `{ username }` object, None for null. */
  datatype State = State(
    storage: map<string, string>,
    authToken: Option<string>,
    currentUser: Option<string>,
    screen: Screen,
    form: Form,
    loginUsername: string,
    loginPassword: string)

  /** localStorage.getItem: null for a missing key. */
  function GetItem(storage: map<string, string>, key: string): (v: Option<string>)
    ensures v.Some? <==> key in storage
    ensures v.Some? ==> v.value == storage[key]
  {
    if key in storage then Some(storage[key]) else None
  }

  /** JavaScript truthiness of a string or null. */
  predicate Truthy(v: Option<string>) {
    v.Some? && v.value != ""
  }

  /** On the app screen the session has a non-empty token and a user. */
  predicate SignedIn(st: State) {
    st.screen == AppScreen ==> Truthy(st.authToken) && st.currentUser.Some?
  }

  /** checkAuth: load the token; enter the app only when a token and a
      username are both stored and non-empty. */
  function AfterCheckAuth(st: State): (r: State)
    ensures r.authToken == GetItem(st.storage, TokenKey)
    ensures r.screen == AppScreen <==>
      Truthy(GetItem(st.storage, TokenKey)) && Truthy(GetItem(st.storage, UsernameKey))
    ensures r.screen == AppScreen ==> r.currentUser == GetItem(st.storage, UsernameKey)
    ensures r.screen == AuthModal ==> r.currentUser == st.currentUser
    ensures r.storage == st.storage && r.form == st.form
    ensures r.loginUsername == st.loginUsername && r.loginPassword == st.loginPassword
    ensures SignedIn(r)
  {
    var token := GetItem(st.storage, TokenKey);
    var username := GetItem(st.storage, UsernameKey);
    if Truthy(token) && Truthy(username) then
      st.(authToken := token, currentUser := username, screen := AppScreen)
    else
      st.(authToken := token, screen := AuthModal)
  }

  /** handleLogout: forget both keys and both globals, clear the login form
      and show it in the auth modal. */
  function AfterLogout(st: State): (r: State)
    ensures TokenKey !in r.storage && UsernameKey !in r.storage
    ensures forall k :: k in r.storage <==> k in st.storage && k != TokenKey && k != UsernameKey
    ensures forall k :: k in r.storage ==> r.storage[k] == st.storage[k]
    ensures r.authToken.None? && r.currentUser.None?
    ensures r.screen == AuthModal && r.form == LoginForm
    ensures r.loginUsername == "" && r.loginPassword == ""
  {
    State(st.storage - {TokenKey, UsernameKey}, None, None, AuthModal, LoginForm, "", "")
  }

  /** The successful branch of handleLogin: keep the token and user the
      server returned, store both, and show the app. */
  function AfterLogin(st: State, token: string, username: string): (r: State)
    ensures r.authToken == Some(token) && r.currentUser == Some(username)
    ensures GetItem(r.storage, TokenKey) == Some(token)
    ensures GetItem(r.storage, UsernameKey) == Some(username)
    ensures forall k :: k != TokenKey && k != UsernameKey ==> GetItem(r.storage, k) == GetItem(st.storage, k)
    ensures r.screen == AppScreen
    ensures SignedIn(r) <==> token != ""
  {
    st.(storage := st.storage[TokenKey := token][UsernameKey := username],
        authToken := Some(token), currentUser := Some(username), screen := AppScreen)
  }

  /** After a logout, checking again stays signed out. */
  lemma LogoutThenCheckAuth(st: State)
    ensures var r := AfterCheckAuth(AfterLogout(st));
      r.screen == AuthModal && r.authToken.None? && r.currentUser.None?
  {
  }

  /** After a login with a non-empty token and username, checking again (as
      on the next page load) enters the app as that user. */
  lemma LoginThenCheckAuth(st: State, token: string, username: string)
    requires token != "" && username != ""
    ensures var r := AfterCheckAuth(AfterLogin(st, token, username));
      r.screen == AppScreen && r.authToken == Some(token) && r.currentUser == Some(username)
  {
  }

  /** The session as the page holds it. */
  class Session {
    var storage: map<string, string>
    var authToken: Option<string>
    var currentUser: Option<string>
    var screen: Screen
    var form: Form
    var loginUsername: string
    var loginPassword: string

    function Snapshot(): State
      reads this
    {
      State(storage, authToken, currentUser, screen, form, loginUsername, loginPassword)
    }

    /** The page as it loads: the globals are null. */
    constructor (storage: map<string, string>)
      ensures Snapshot() == State(storage, None, None, AuthModal, LoginForm, "", "")
    {
      this.storage := storage;
      authToken, currentUser := None, None;
      screen, form := AuthModal, LoginForm;
      loginUsername, loginPassword := "", "";
    }

    method CheckAuth()
      modifies this
      ensures Snapshot() == AfterCheckAuth(old(Snapshot()))
    {
      authToken := GetItem(storage, TokenKey);
      var username := GetItem(storage, UsernameKey);
      if Truthy(authToken) && Truthy(username) {
        currentUser := username;
        screen := AppScreen;
      } else {
        screen := AuthModal;
      }
    }

    method HandleLogout()
      modifies this
      ensures Snapshot() == AfterLogout(old(Snapshot()))
    {
      storage := storage - {TokenKey, UsernameKey};
      authToken := None;
      currentUser := None;
      loginUsername := "";
      loginPassword := "";
      screen := AuthModal;
      form := LoginForm;
    }

    /** handleLogin once the server has answered with `response.ok`. */
    method LoginSucceeded(token: string, username: string)
      modifies this
      ensures Snapshot() == AfterLogin(old(Snapshot()), token, username)
    {
      authToken := Some(token);
      currentUser := Some(username);
      storage := storage[TokenKey := token];
      storage := storage[UsernameKey := username];
      screen := AppScreen;
    }
  }
}
