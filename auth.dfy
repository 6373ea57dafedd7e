/** The authentication hook (`useAuth`): where the token is kept, chosen by the remember-me
    flag, the start-up profile check, login, logout and clearing. */
module Auth {
  import opened Remote
  import opened Types
  import WebStorage
  import Api

  const TokenKey: string := "authToken"
  const RememberKey: string := "rememberMe"
  const LoginPath: string := "/admin/login"
  const LoginDefault: string := "Erro no login"

  /** The token `checkAuth` reads: the local one when local `rememberMe` is 'true', the
      session one otherwise. */
  function StoredToken(local: map<string, string>, session: map<string, string>): (t: Option<string>)
    ensures WebStorage.Get(local, RememberKey) == Some("true") ==> t == WebStorage.Get(local, TokenKey)
    ensures WebStorage.Get(local, RememberKey) != Some("true") ==> t == WebStorage.Get(session, TokenKey)
  {
    if WebStorage.Get(local, RememberKey) == Some("true") then WebStorage.Get(local, TokenKey)
    else WebStorage.Get(session, TokenKey)
  }

  /** `{ success, data }` of the profile endpoint. */
  datatype ProfileReply = ProfileReply(success: bool, data: Option<User>)

  /** `{ success, token, user, message }` of the login endpoint; '' stands for a missing text. */
  datatype LoginReply = LoginReply(success: bool, token: string, user: Option<User>, message: string)

  /** A login reply that signs in: success with a non-empty token. */
  predicate Accepted(outcome: Outcome<LoginReply>)
  {
    outcome.Success? && outcome.value.success && outcome.value.token != ""
  }

  /** The message of a refused login: the reply's message or the default for a refusal, and the
      server's message, the error's message or the default for a failed call. */
  function LoginError(outcome: Outcome<LoginReply>): (m: string)
    requires !Accepted(outcome)
    ensures m != ""
    ensures outcome.Success? ==> m == OrElse(outcome.value.message, LoginDefault)
    ensures outcome.Failure? ==> m == OrElse(outcome.serverMessage, OrElse(outcome.message, LoginDefault))
  {
    match outcome
    case Success(reply) => OrElse(reply.message, LoginDefault)
    case Failure(server, message) => OrElse(server, OrElse(message, LoginDefault))
  }

  /** The local store after a login. */
  function LoginLocal(local: map<string, string>, rememberMe: bool, token: string): map<string, string>
  {
    if rememberMe then local[TokenKey := token][RememberKey := "true"] else local - {RememberKey}
  }

  /** The session store after a login. */
  function LoginSession(session: map<string, string>, rememberMe: bool, token: string): map<string, string>
  {
    if rememberMe then session else session[TokenKey := token]
  }

  /** Whatever the remember-me choice, the next start-up check reads the token just stored. */
  lemma LoginTokenIsRead(local: map<string, string>, session: map<string, string>, rememberMe: bool, token: string)
    ensures StoredToken(LoginLocal(local, rememberMe, token), LoginSession(session, rememberMe, token)) == Some(token)
  {
    if rememberMe {
      assert WebStorage.Get(LoginLocal(local, true, token), RememberKey) == Some("true");
    } else {
      assert RememberKey !in LoginLocal(local, false, token);
    }
  }

  /** A login without remember-me leaves an older local token in place; the client sends the
      new session token. After a login with remember-me over a leftover session token, the
      start-up check reads the new local token while the client sends the old session one. */
  lemma TokenSources(local: map<string, string>, session: map<string, string>, token: string, stale: string)
    requires token != "" && stale != "" && stale != token
    ensures TokenKey in local ==> LoginLocal(local, false, token)[TokenKey] == local[TokenKey]
    ensures Api.RequestToken(LoginLocal(local, false, token), LoginSession(session, false, token)) == Some(token)
    ensures var l, s := LoginLocal(local, true, token), LoginSession(session[TokenKey := stale], true, token);
      StoredToken(l, s) == Some(token) && Api.RequestToken(l, s) == Some(stale)
  {
    LoginTokenIsRead(local, session[TokenKey := stale], true, token);
  }

  /** After clearing, neither the start-up check nor the client finds a token. */
  lemma ClearedHasNoToken(local: map<string, string>, session: map<string, string>)
    ensures StoredToken(local - {TokenKey, RememberKey}, session - {TokenKey}).None?
    ensures Api.RequestToken(local - {TokenKey, RememberKey}, session - {TokenKey}).None?
  {
  }

  class Session {
    var user: Option<User>
    var isAuth: bool
    var loading: bool
    const storage: WebStorage.Stores

    constructor (storage: WebStorage.Stores)
      ensures user.None? && !isAuth && loading && this.storage == storage
    {
      user, isAuth, loading := None, false, true;
      this.storage := storage;
    }

    /** `clearAuth`: removes both tokens and `rememberMe`, and signs out. */
    method ClearAuth()
      modifies this, storage
      ensures storage.local == old(storage.local) - {TokenKey, RememberKey}
      ensures storage.session == old(storage.session) - {TokenKey}
      ensures user.None? && !isAuth && loading == old(loading)
    {
      storage.local := storage.local - {TokenKey};
      storage.session := storage.session - {TokenKey};
      storage.local := storage.local - {RememberKey};
      assert storage.local == old(storage.local) - {TokenKey, RememberKey};
      user, isAuth := None, false;
    }

    /** `checkAuth`: with a stored token, asks for the profile (through the client without the
        token interceptor); a good answer signs in, anything else clears. Without a token
        nothing is asked and nothing changes. Loading ends in every case. */
    method CheckAuth(profile: Outcome<ProfileReply>) returns (requested: bool)
      modifies this, storage
      ensures requested <==> WebStorage.Truthy(StoredToken(old(storage.local), old(storage.session)))
      ensures !requested ==>
        user == old(user) && isAuth == old(isAuth)
        && storage.local == old(storage.local) && storage.session == old(storage.session)
      ensures requested && profile.Success? && profile.value.success ==>
        user == profile.value.data && isAuth
        && storage.local == old(storage.local) && storage.session == old(storage.session)
      ensures requested && !(profile.Success? && profile.value.success) ==>
        user.None? && !isAuth
        && storage.local == old(storage.local) - {TokenKey, RememberKey} && storage.session == old(storage.session) - {TokenKey}
      ensures !loading
    {
      var token := StoredToken(storage.local, storage.session);
      requested := WebStorage.Truthy(token);
      if requested {
        if profile.Success? && profile.value.success {
          user, isAuth := profile.value.data, true;
        } else {
          ClearAuth();
        }
      }
      loading := false;
    }

    /** `handleLogin`: an accepted reply stores the token where remember-me says and signs in;
        any other answer leaves storage and user untouched and reports the error. */
    method HandleLogin(rememberMe: bool, outcome: Outcome<LoginReply>) returns (error: Option<string>)
      modifies this, storage
      ensures Accepted(outcome) ==>
        error.None? && isAuth && user == outcome.value.user
        && storage.local == LoginLocal(old(storage.local), rememberMe, outcome.value.token)
        && storage.session == LoginSession(old(storage.session), rememberMe, outcome.value.token)
      ensures !Accepted(outcome) ==>
        error == Some(LoginError(outcome))
        && user == old(user) && isAuth == old(isAuth)
        && storage.local == old(storage.local) && storage.session == old(storage.session)
      ensures loading == old(loading)
    {
      if Accepted(outcome) {
        var token := outcome.value.token;
        if rememberMe {
          storage.local := storage.local[TokenKey := token];
          storage.local := storage.local[RememberKey := "true"];
        } else {
          storage.session := storage.session[TokenKey := token];
          storage.local := storage.local - {RememberKey};
        }
        user, isAuth := outcome.value.user, true;
        error := None;
      } else {
        error := Some(LoginError(outcome));
      }
    }

    /** `handleLogout`: clears and goes to the login page. */
    method HandleLogout() returns (navigateTo: string)
      modifies this, storage
      ensures navigateTo == LoginPath
      ensures storage.local == old(storage.local) - {TokenKey, RememberKey}
      ensures storage.session == old(storage.session) - {TokenKey}
      ensures user.None? && !isAuth
    {
      ClearAuth();
      navigateTo := LoginPath;
    }

    /** `getCurrentUserInfo`: a good answer replaces the user and is returned; otherwise
        nothing changes and nothing is returned. */
    method GetCurrentUserInfo(profile: Outcome<ProfileReply>) returns (info: Option<User>)
      modifies this
      ensures profile.Success? && profile.value.success ==> info == profile.value.data && user == info
      ensures !(profile.Success? && profile.value.success) ==> info.None? && user == old(user)
      ensures isAuth == old(isAuth) && loading == old(loading)
    {
      if profile.Success? && profile.value.success {
        user := profile.value.data;
        info := user;
      } else {
        info := None;
      }
    }
  }
}
