/** lib/msal-helper.tsx: the guards and scope lists around the identity
    library's client instance. The library's calls (`ssoSilent`,
    `loginPopup`, `logoutPopup`, `acquireTokenSilent`) are inputs: each either
    returns or throws, as the caller of the model decides. */
module MsalHelper {
  import opened Wrappers
  import opened Types
  import opened Text

  /** A signed-in account, with the `name` claim of its ID token when present. */
  datatype Account = Account(homeAccountId: string, name: Option<string>)

  /** The identity library's client instance. Its only state the helpers
      read or write is the active account. */
  class Identity {
    var activeAccount: Option<Account>

    constructor (account: Option<Account>)
      ensures activeAccount == account
    {
      activeAccount := account;
    }
  }

  /** `isUserLoggedIn`: whether an account is active. */
  function IsUserLoggedIn(instance: Identity): (r: bool)
    reads instance
    ensures r <==> instance.activeAccount.Some?
  {
    instance.activeAccount != None
  }

  /** `getUserDisplayName`: the active account's name claim, if both exist. */
  function GetUserDisplayName(instance: Identity): (r: Option<string>)
    reads instance
    ensures r.Some? <==> instance.activeAccount.Some? && instance.activeAccount.value.name.Some?
    ensures r.Some? ==> r == instance.activeAccount.value.name
  {
    match instance.activeAccount
    case None => None
    case Some(a) => a.name
  }

  /** The `requestedScopes` argument: undefined, one string, or an array. */
  datatype ScopeArg = NoScopes | OneScope(scope: string) | ScopeList(scopes: seq<string>)

  const BaseScope := "User.Read"

  /** The scope list `verifyLogin` asks for: "User.Read", then the trimmed
      string or the array's scopes in order. */
  function LoginScopes(requested: ScopeArg): (r: seq<string>)
    ensures |r| >= 1 && r[0] == BaseScope
    ensures requested.NoScopes? ==> r == [BaseScope]
    ensures requested.OneScope? ==> r == [BaseScope, Strip(requested.scope, JsWhitespace)]
    ensures requested.ScopeList? ==> r[1..] == requested.scopes
  {
    var scopes := [BaseScope];
    match requested
    case NoScopes => scopes
    case OneScope(s) => scopes + [Strip(s, JsWhitespace)]
    case ScopeList(ss) => scopes + ss
  }

  /** `(error as Error).message` written into a string. The cast checks
      nothing: any object with a `message` gives it, a string or another value
      without one gives "undefined", and reading the property of `null` or
      `undefined` throws a TypeError (`None`). */
  function ThrownMessage(err: Thrown): (r: Option<string>)
    ensures r.None? <==> err.Nullish?
    ensures err.ErrorObject? || err.MessageObject? ==> r == Some(err.message)
    ensures err.StringValue? || err.OtherValue? ==> r == Some("undefined")
  {
    match err
    case ErrorObject(m) => Some(m)
    case MessageObject(m) => Some(m)
    case Nullish => None
    case _ => Some("undefined")
  }

  /** The display name reported for an account. */
  function NameOrUnknown(a: Account): string {
    a.name.GetOr("Unknown User")
  }

  /** What a login call (`ssoSilent` or `loginPopup`) did: returned a response,
      with or without an account, or threw. */
  datatype LoginOutcome = LoginReturned(account: Option<Account>) | LoginThrew(err: Thrown)

  /** A login call made to the library, with the scopes it asked for. */
  datatype LoginCall = SsoSilent(scopes: seq<string>) | LoginPopup(scopes: seq<string>)

  /** The specification of `VerifyLogin`: what `verifyLogin` reports and
      which account is active afterwards, given the active account before and
      what each login call does. `None` when the call rejects, which happens
      only when the login that is kept threw `null` or `undefined`. */
  function SignIn(active: Option<Account>, silent: LoginOutcome, popup: LoginOutcome)
    : (r: Option<(VerifyLoginResult, Option<Account>)>)
    ensures r.None? <==> active.None? && (if silent.LoginThrew? then popup else silent) == LoginThrew(Nullish)
    ensures r.Some? ==> (r.value.0.success <==> r.value.1.Some?)
    ensures r.Some? && !r.value.0.success ==> r.value.0.displayName == ""
    ensures active.Some? ==> r.Some? && r.value.1 == active
  {
    if active.Some? then
      Some((VerifyLoginResult(true, "User is already logged in.", NameOrUnknown(active.value)), active))
    else
      var response := if silent.LoginThrew? then popup else silent;
      match response
      case LoginThrew(err) =>
        var message := ThrownMessage(err);
        if message.None? then None
        else Some((VerifyLoginResult(false, "Login failed: " + message.value, ""), None))
      case LoginReturned(Some(account)) =>
        Some((VerifyLoginResult(true, "User logged in successfully.", NameOrUnknown(account)), Some(account)))
      case LoginReturned(None) => Some((VerifyLoginResult(false, "No account found after login.", ""), None))
  }

  /** `verifyLogin`. With an account already active nothing is attempted.
      Otherwise silent single sign-on is tried first and the popup only when it
      throws; an account in the response becomes the active account. A result
      of `None` is the returned promise rejecting. */
  method VerifyLogin(instance: Identity, requested: ScopeArg, silent: LoginOutcome, popup: LoginOutcome)
    returns (result: Option<VerifyLoginResult>, calls: seq<LoginCall>)
    modifies instance
    ensures SignIn(old(instance.activeAccount), silent, popup)
            == if result.Some? then Some((result.value, instance.activeAccount)) else None
    // a rejection changes no account
    ensures result.None? ==> instance.activeAccount == old(instance.activeAccount)
    // a sign-in result succeeds exactly when an account is active afterwards
    ensures result.Some? ==> (result.value.success <==> instance.activeAccount.Some?)
    ensures result.Some? && !result.value.success ==> result.value.displayName == ""
    ensures old(instance.activeAccount).Some? ==>
              && calls == []
              && instance.activeAccount == old(instance.activeAccount)
              && result == Some(VerifyLoginResult(true, "User is already logged in.",
                                                  NameOrUnknown(old(instance.activeAccount).value)))
    ensures old(instance.activeAccount).None? ==>
              calls == if silent.LoginThrew?
                       then [SsoSilent(LoginScopes(requested)), LoginPopup(LoginScopes(requested))]
                       else [SsoSilent(LoginScopes(requested))]
    ensures old(instance.activeAccount).None? ==>
              var response := if silent.LoginThrew? then popup else silent;
              && (response.LoginReturned? && response.account.Some? ==>
                    && instance.activeAccount == response.account
                    && result == Some(VerifyLoginResult(true, "User logged in successfully.",
                                                        NameOrUnknown(response.account.value))))
              && (response.LoginReturned? && response.account.None? ==>
                    && instance.activeAccount == None
                    && result == Some(VerifyLoginResult(false, "No account found after login.", "")))
              && (response.LoginThrew? ==>
                    && instance.activeAccount == None
                    && result == if ThrownMessage(response.err).None? then None
                                 else Some(VerifyLoginResult(false, "Login failed: " + ThrownMessage(response.err).value, "")))
  {
    var scopes := LoginScopes(requested);
    var active := instance.activeAccount;
    if active.Some? {
      return Some(VerifyLoginResult(true, "User is already logged in.", NameOrUnknown(active.value))), [];
    }
    calls := [SsoSilent(scopes)];
    var response := silent;
    if silent.LoginThrew? {
      calls := calls + [LoginPopup(scopes)];
      response := popup;
    }
    match response
    case LoginThrew(err) =>
      var message := ThrownMessage(err);
      if message.None? {
        result := None;
      } else {
        result := Some(VerifyLoginResult(false, "Login failed: " + message.value, ""));
      }
    case LoginReturned(Some(account)) =>
      instance.activeAccount := Some(account);
      result := Some(VerifyLoginResult(true, "User logged in successfully.", NameOrUnknown(account)));
    case LoginReturned(None) =>
      result := Some(VerifyLoginResult(false, "No account found after login.", ""));
  }

  /** What `logoutPopup` did. When it returns, the library has removed the
      account it signed out, so no account is active afterwards. When it
      throws, the library may already have removed the account from its cache
      (`cleared`), as it does before opening the popup, or not. */
  datatype LogoutOutcome = LogoutReturned | LogoutThrew(err: Thrown, cleared: bool)

  /** `signOut`: false without an instance, without an active account (no
      logout is attempted then) or when the logout throws; true otherwise. */
  method SignOut(instance: Identity?, logout: LogoutOutcome) returns (ok: bool, attempted: bool)
    modifies instance
    ensures attempted <==> instance != null && old(instance.activeAccount).Some?
    ensures ok <==> attempted && logout.LogoutReturned?
    ensures instance != null ==>
              instance.activeAccount ==
                if ok || (logout.LogoutThrew? && logout.cleared) then None else old(instance.activeAccount)
  {
    if instance == null {
      return false, false;
    }
    if instance.activeAccount.None? {
      return false, false;
    }
    attempted := true;
    match logout
    case LogoutThrew(_, cleared) =>
      if cleared {
        instance.activeAccount := None;
      }
      ok := false;
    case LogoutReturned =>
      instance.activeAccount := None;
      ok := true;
  }

  /** What `acquireTokenSilent` did. */
  datatype TokenOutcome = TokenAcquired(accessToken: string) | TokenThrew(err: Thrown)

  /** The silent token request: the scopes and the account. */
  datatype TokenRequest = TokenRequest(scopes: seq<string>, account: Account)

  /** The request made, if any, and the token returned (`null` is `None`). */
  datatype TokenAttempt = TokenAttempt(request: Option<TokenRequest>, token: Option<string>)

  /** `getAccessToken`: never throws; without an instance, with an undefined
      or empty scope, without an active account or when silent acquisition
      throws, the token is null. Otherwise exactly `[scope]` is requested for
      the active account. */
  function GetAccessToken(instance: Identity?, scope: Option<string>, outcome: TokenOutcome): (r: TokenAttempt)
    reads instance
    ensures r.request.Some? <==>
              instance != null && scope.Some? && scope.value != "" && instance.activeAccount.Some?
    ensures r.request.Some? ==> r.request.value == TokenRequest([scope.value], instance.activeAccount.value)
    ensures r.token.Some? <==> r.request.Some? && outcome.TokenAcquired?
    ensures r.token.Some? ==> r.token.value == outcome.accessToken
  {
    if instance == null then TokenAttempt(None, None)
    else if scope.None? then TokenAttempt(None, None)
    else if scope.value == "" then TokenAttempt(None, None)
    else if instance.activeAccount.None? then TokenAttempt(None, None)
    else
      var request := TokenRequest([scope.value], instance.activeAccount.value);
      match outcome
      case TokenAcquired(t) => TokenAttempt(Some(request), Some(t))
      case TokenThrew(_) => TokenAttempt(Some(request), None)
  }
}
