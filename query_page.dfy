/** app/query/page.tsx: the query page's state and its handlers, each as one
    atomic step. Toasts, focus, telemetry and rendering are not modelled; the
    identity library's and the warehouse's answers are inputs. */
module QueryPage {
  import opened Wrappers
  import opened Types
  import opened Text
  import opened MsalHelper
  import opened SnowflakeQuery

  /** The statement `get_query` (lib/api.tsx) returns for any token. */
  const SampleQuery := "SELECT PRODUCT, STATUS, REGION, SEGMENT, AMOUNT_USD FROM DW.PUBLIC.FORECAST"

  const InitialInput := "TYPE QUERY HERE"

  /** `input.trim() === ""`. */
  predicate Blank(s: string) {
    Strip(s, JsWhitespace) == ""
  }

  /** The token a handler goes on with: `!accessToken` rejects null and "". */
  function Usable(attempt: TokenAttempt): (t: Option<string>)
    ensures t.Some? <==> attempt.token.Some? && attempt.token.value != ""
    ensures t.Some? ==> t == attempt.token
  {
    if attempt.token.Some? && attempt.token.value != "" then attempt.token else None
  }

  /** `process.env.NEXT_PUBLIC_SNOWFLAKE_SCOPE` passed as `requestedScopes`. */
  function ScopeArgOf(scope: Option<string>): ScopeArg {
    match scope
    case None => NoScopes
    case Some(s) => OneScope(s)
  }

  class QueryPage {
    var input: string
    var headings: seq<string>
    var entries: seq<Row>
    var isLoggedIn: bool
    var userDisplayName: Option<string>

    /** The identity instance the page obtained (`useMsal`), possibly missing. */
    const instance: Identity?
    /** `NEXT_PUBLIC_SNOWFLAKE_SCOPE`. */
    const scope: Option<string>
    /** The warehouse environment values. */
    const config: Config

    /** The page shows a signed-in user only when it has an identity
        instance, and shows no name while signed out. (It may show a user
        signed in whose account the library has already removed: a logout
        that throws can clear the account and leave the page as it was.) */
    ghost predicate Valid()
      reads this
    {
      && (isLoggedIn ==> instance != null)
      && (!isLoggedIn ==> userDisplayName.None?)
    }

    /** The token `getAccessToken` yields for the given outcome of silent acquisition. */
    function PageToken(acquire: TokenOutcome): Option<string>
      reads instance
    {
      Usable(GetAccessToken(instance, scope, acquire))
    }

    constructor (instance: Identity?, scope: Option<string>, config: Config)
      ensures Valid()
      ensures this.instance == instance && this.scope == scope && this.config == config
      ensures input == InitialInput && headings == [] && entries == []
      ensures !isLoggedIn && userDisplayName == None
    {
      this.instance := instance;
      this.scope := scope;
      this.config := config;
      input := InitialInput;
      headings := [];
      entries := [];
      isLoggedIn := false;
      userDisplayName := None;
    }

    /** `handleInputChange`. */
    method HandleInputChange(value: string)
      requires Valid()
      modifies this`input
      ensures Valid() && input == value
    {
      input := value;
    }

    /** `fetchSampleQuery`: with a token, the input becomes the sample statement. */
    method FetchSampleQuery(acquire: TokenOutcome) returns (fetched: bool)
      requires Valid()
      modifies this`input
      ensures Valid()
      ensures fetched <==> PageToken(acquire).Some?
      ensures input == if fetched then SampleQuery else old(input)
    {
      var token := Usable(GetAccessToken(instance, scope, acquire));
      if token.None? {
        return false;
      }
      input := SampleQuery;
      fetched := true;
    }

    /** `submitQuery`: without a token nothing is sent; otherwise the statement
        request is sent, and only a successful response replaces the result. */
    method SubmitQuery(sql: string, acquire: TokenOutcome, outcome: Outcome)
      returns (ok: bool, sent: Option<Request>)
      requires Valid()
      modifies this`headings, this`entries
      ensures Valid()
      ensures PageToken(acquire).None? ==>
                !ok && sent.None? && headings == old(headings) && entries == old(entries)
      ensures PageToken(acquire).Some? ==>
                && sent == Some(BuildRequest(config, sql, PageToken(acquire).value))
                && ok == Normalise(outcome).success
      ensures ok ==> entries == Normalise(outcome).data.GetOr([])
                     && headings == Normalise(outcome).headings.GetOr([])
      ensures !ok ==> headings == old(headings) && entries == old(entries)
    {
      var token := Usable(GetAccessToken(instance, scope, acquire));
      if token.None? {
        return false, None;
      }
      var request := BuildRequest(config, sql, token.value);
      sent := Some(request);
      var response := Normalise(outcome);
      if !response.success {
        return false, sent;
      }
      entries := response.data.GetOr([]);
      headings := response.headings.GetOr([]);
      ok := true;
    }

    /** `handleGo`: blank input does nothing; a failed query of any kind
        leaves headings and entries empty. */
    method HandleGo(acquire: TokenOutcome, outcome: Outcome) returns (sent: Option<Request>)
      requires Valid()
      modifies this`headings, this`entries
      ensures Valid()
      ensures Blank(input) ==> sent.None? && headings == old(headings) && entries == old(entries)
      ensures !Blank(input) ==>
                sent == (if PageToken(acquire).Some?
                         then Some(BuildRequest(config, input, PageToken(acquire).value)) else None)
      ensures !Blank(input) && PageToken(acquire).Some? && Normalise(outcome).success ==>
                entries == Normalise(outcome).data.GetOr([]) && headings == Normalise(outcome).headings.GetOr([])
      ensures !Blank(input) && !(PageToken(acquire).Some? && Normalise(outcome).success) ==>
                headings == [] && entries == []
    {
      if Blank(input) {
        return None;
      }
      ghost var token := PageToken(acquire);
      var ok;
      ok, sent := SubmitQuery(input, acquire, outcome);
      assert PageToken(acquire) == token;
      assert ok <==> token.Some? && Normalise(outcome).success;
      if !ok {
        headings := [];
        entries := [];
      }
    }

    /** `handleKeyDown`: Enter without Shift on non-blank input runs `handleGo`. */
    method HandleKeyDown(key: string, shift: bool, acquire: TokenOutcome, outcome: Outcome)
      returns (went: bool, sent: Option<Request>)
      requires Valid()
      modifies this`headings, this`entries
      ensures Valid()
      ensures went <==> key == "Enter" && !shift && !Blank(input)
      ensures !went ==> sent.None? && headings == old(headings) && entries == old(entries)
      ensures went ==> sent == (if PageToken(acquire).Some?
                                then Some(BuildRequest(config, input, PageToken(acquire).value)) else None)
      ensures went && PageToken(acquire).Some? && Normalise(outcome).success ==>
                entries == Normalise(outcome).data.GetOr([]) && headings == Normalise(outcome).headings.GetOr([])
      ensures went && !(PageToken(acquire).Some? && Normalise(outcome).success) ==>
                headings == [] && entries == []
    {
      went, sent := false, None;
      if key == "Enter" && !shift {
        if !Blank(input) {
          sent := HandleGo(acquire, outcome);
          went := true;
        }
      }
    }

    /** `loginOrGetUserInfo`: a successful sign-in shows the user's name, a
        failed one shows the user signed out. With no instance, `verifyLogin`
        throws before anything changes; when it rejects, nothing is set. */
    method LoginOrGetUserInfo(silent: LoginOutcome, popup: LoginOutcome)
      returns (result: Option<VerifyLoginResult>)
      requires Valid()
      modifies this`isLoggedIn, this`userDisplayName, instance
      ensures Valid()
      ensures result.None? <==> instance == null || SignIn(old(instance.activeAccount), silent, popup).None?
      ensures result.None? ==> isLoggedIn == old(isLoggedIn) && userDisplayName == old(userDisplayName)
      ensures result.None? && instance != null ==> instance.activeAccount == old(instance.activeAccount)
      ensures result.Some? ==>
                SignIn(old(instance.activeAccount), silent, popup) == Some((result.value, instance.activeAccount))
      ensures result.Some? && result.value.success ==>
                isLoggedIn && userDisplayName == Some(result.value.displayName)
      ensures result.Some? && !result.value.success ==> !isLoggedIn && userDisplayName == None
    {
      if instance == null {
        return None;
      }
      var verified, _ := VerifyLogin(instance, ScopeArgOf(scope), silent, popup);
      if verified.None? {
        return None;
      }
      var verify := verified.value;
      result := verified;
      if !verify.success {
        isLoggedIn := false;
        userDisplayName := None;
      } else {
        isLoggedIn := true;
        userDisplayName := Some(verify.displayName);
      }
    }

    /** `logout`: a successful sign-out shows the user signed out; a failed one
        changes nothing on the page, though the library may have removed the
        account. */
    method Logout(logout: LogoutOutcome) returns (ok: bool)
      requires Valid()
      modifies this`isLoggedIn, this`userDisplayName, instance
      ensures Valid()
      ensures ok <==> instance != null && old(instance.activeAccount).Some? && logout.LogoutReturned?
      ensures ok ==> !isLoggedIn && userDisplayName == None && instance.activeAccount.None?
      ensures !ok ==> isLoggedIn == old(isLoggedIn) && userDisplayName == old(userDisplayName)
      ensures !ok && instance != null ==>
                instance.activeAccount ==
                  if logout.LogoutThrew? && logout.cleared then None else old(instance.activeAccount)
    {
      var attempted;
      ok, attempted := SignOut(instance, logout);
      if ok {
        isLoggedIn := false;
        userDisplayName := None;
      }
    }

    /** `checkLogin`, run when the page mounts: it mirrors the identity
        instance's active account. With no instance the name is cleared and
        the next call throws, so `isLoggedIn` is left as it was. */
    method CheckLogin()
      requires Valid()
      modifies this`isLoggedIn, this`userDisplayName
      ensures Valid()
      ensures instance == null ==> userDisplayName == None && isLoggedIn == old(isLoggedIn)
      ensures instance != null ==>
                && isLoggedIn == IsUserLoggedIn(instance)
                && userDisplayName == (if isLoggedIn then GetUserDisplayName(instance) else None)
    {
      if instance == null {
        userDisplayName := None;
        return;
      }
      var loggedIn := IsUserLoggedIn(instance);
      isLoggedIn := loggedIn;
      if loggedIn {
        userDisplayName := GetUserDisplayName(instance);
      } else {
        isLoggedIn := false;
        userDisplayName := None;
      }
    }
  }
}
