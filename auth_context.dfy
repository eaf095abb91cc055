/** The session provider: user, token, loading and verified-once flags, kept in step with
    the two storage keys by login, signup, logout, the restore effect and the profile check. */
module AuthContext {
  import opened Wrappers
  import opened Text
  import opened AuthTypes
  import opened LocalStorage

  /** `JSON.parse` of the stored user: it throws, or yields a user or `null`. */
  datatype ParsedUser = Threw | Parsed(user: Option<User>)

  /** A rejected request as the catch blocks see it: whether the error object has a
      `response` key, and the server's `message` if there is one. */
  datatype RequestError = RequestError(hasResponse: bool, serverMessage: Option<string>)

  datatype AuthResponse = AuthResponse(message: string, token: string, user: User)

  /** `axiosError.response?.data?.message || fallback`, for an error object. */
  function ErrorMessage(e: RequestError, fallback: string): (s: string)
    ensures e.hasResponse && Truthy(e.serverMessage) ==> s == e.serverMessage.value
    ensures !(e.hasResponse && Truthy(e.serverMessage)) ==> s == fallback
  {
    if e.hasResponse && Truthy(e.serverMessage) then e.serverMessage.value else fallback
  }

  /** `!!user && !!token`. */
  predicate IsAuthenticated(user: Option<User>, token: Option<string>) {
    user.Some? && Truthy(token)
  }

  class AuthProvider {
    var user: Option<User>
    var token: Option<string>
    var isLoading: bool
    var hasVerifiedProfile: bool
    const storage: Storage
    /** `JSON.stringify` for users. */
    const stringify: User -> string

    constructor(storage: Storage, stringify: User -> string)
      ensures this.storage == storage && this.stringify == stringify
      ensures user == None && token == None && isLoading && !hasVerifiedProfile
    {
      this.storage := storage;
      this.stringify := stringify;
      user := None;
      token := None;
      isLoading := true;
      hasVerifiedProfile := false;
    }

    function Authenticated(): bool
      reads this
    {
      IsAuthenticated(user, token)
    }

    /** `logout`: both keys removed, session cleared, verification to be redone; the
        router goes to `/signin`. */
    method Logout() returns (navigate: Option<string>)
      modifies this, storage
      ensures storage.items == old(storage.items) - {TokenKey, UserKey}
      ensures user == None && token == None && !hasVerifiedProfile && isLoading == old(isLoading)
      ensures navigate == Some("/signin")
    {
      storage.ClearSession();
      token := None;
      user := None;
      hasVerifiedProfile := false;
      navigate := Some("/signin");
    }

    /** The restore effect: only with both keys stored (and non-empty) is the session taken
        from storage; a stored user that does not parse logs out; loading ends either way. */
    method Restore(parsed: ParsedUser) returns (navigate: Option<string>)
      modifies this, storage
      ensures !isLoading
      ensures var t, u := old(storage.GetItem(TokenKey)), old(storage.GetItem(UserKey));
        if Truthy(t) && Truthy(u) then
          if parsed.Threw? then
            && navigate == Some("/signin") && user == None && token == None && !hasVerifiedProfile
            && storage.items == old(storage.items) - {TokenKey, UserKey}
          else
            && navigate == None && token == t && user == parsed.user
            && hasVerifiedProfile == old(hasVerifiedProfile) && storage.items == old(storage.items)
        else
          && navigate == None && user == old(user) && token == old(token)
          && hasVerifiedProfile == old(hasVerifiedProfile) && storage.items == old(storage.items)
    {
      navigate := None;
      var storedToken := storage.GetItem(TokenKey);
      var storedUser := storage.GetItem(UserKey);
      if Truthy(storedToken) && Truthy(storedUser) {
        token := storedToken;
        match parsed
        case Threw =>
          navigate := Logout();
        case Parsed(u) =>
          user := u;
      }
      isLoading := false;
    }

    /** The verify-once guard. */
    predicate ShouldVerify()
      reads this
    {
      Truthy(token) && !isLoading && !hasVerifiedProfile
    }

    /** The verify-once effect with the profile request's outcome: when it fires it marks the
        profile verified first; a fetched profile replaces the user and its stored copy, a
        failure logs out. When the guard is false nothing changes. */
    method VerifyProfile(profile: Result<User, RequestError>) returns (navigate: Option<string>)
      modifies this, storage
      ensures !old(ShouldVerify()) ==>
        && navigate == None && user == old(user) && token == old(token)
        && hasVerifiedProfile == old(hasVerifiedProfile) && storage.items == old(storage.items)
      ensures old(ShouldVerify()) && profile.Ok? ==>
        && navigate == None && user == Some(profile.value) && token == old(token) && hasVerifiedProfile
        && storage.items == old(storage.items)[UserKey := stringify(profile.value)]
      ensures old(ShouldVerify()) && profile.Err? ==>
        && navigate == Some("/signin") && user == None && token == None && !hasVerifiedProfile
        && storage.items == old(storage.items) - {TokenKey, UserKey}
      ensures isLoading == old(isLoading)
      ensures old(ShouldVerify()) ==> !ShouldVerify()
    {
      navigate := None;
      if ShouldVerify() {
        hasVerifiedProfile := true;
        match profile
        case Ok(u) =>
          user := Some(u);
          storage.SetItem(UserKey, stringify(u));
        case Err(_) =>
          navigate := Logout();
      }
    }

    /** The effect that leaves the auth pages once a session is known. */
    function HomeRedirect(pathname: string): (navigate: Option<string>)
      reads this
      ensures navigate.Some? <==> !isLoading && Authenticated() && (pathname == "/signin" || pathname == "/signup")
      ensures navigate.Some? ==> navigate.value == "/"
    {
      if !isLoading && Authenticated() && (pathname == "/signin" || pathname == "/signup") then Some("/") else None
    }

    /** `login` with the request's outcome. Success stores and sets token and user, marks the
        profile verified and goes home; failure writes nothing and reports the server's
        message or 'Erro ao fazer login'. Loading is off afterwards in both cases. */
    method Login(outcome: Result<AuthResponse, RequestError>) returns (navigate: Option<string>, error: Option<string>)
      modifies this, storage
      ensures !isLoading
      ensures outcome.Ok? ==>
        && error == None && navigate == Some("/")
        && storage.items == old(storage.items)[TokenKey := outcome.value.token][UserKey := stringify(outcome.value.user)]
        && token == Some(outcome.value.token) && user == Some(outcome.value.user) && hasVerifiedProfile
      ensures outcome.Err? ==>
        && error == Some(ErrorMessage(outcome.error, "Erro ao fazer login")) && navigate == None
        && storage.items == old(storage.items)
        && token == old(token) && user == old(user) && hasVerifiedProfile == old(hasVerifiedProfile)
    {
      isLoading := true;
      match outcome {
        case Ok(response) =>
          storage.SetItem(TokenKey, response.token);
          storage.SetItem(UserKey, stringify(response.user));
          token := Some(response.token);
          user := Some(response.user);
          hasVerifiedProfile := true;
          navigate, error := Some("/"), None;
        case Err(e) =>
          navigate, error := None, Some(ErrorMessage(e, "Erro ao fazer login"));
      }
      isLoading := false;
    }

    /** `signup` then `login` with the same e-mail and password. The error `login` throws is
        a plain `Error` without `response`, so a failed login after a successful signup is
        reported as 'Erro ao criar conta'. */
    method Signup(created: Result<User, RequestError>, loginOutcome: Result<AuthResponse, RequestError>)
      returns (navigate: Option<string>, error: Option<string>)
      modifies this, storage
      ensures !isLoading
      ensures created.Err? ==>
        && error == Some(ErrorMessage(created.error, "Erro ao criar conta")) && navigate == None
        && storage.items == old(storage.items) && token == old(token) && user == old(user)
        && hasVerifiedProfile == old(hasVerifiedProfile)
      ensures created.Ok? && loginOutcome.Err? ==>
        && error == Some("Erro ao criar conta") && navigate == None
        && storage.items == old(storage.items) && token == old(token) && user == old(user)
        && hasVerifiedProfile == old(hasVerifiedProfile)
      ensures created.Ok? && loginOutcome.Ok? ==>
        && error == None && navigate == Some("/")
        && storage.items == old(storage.items)[TokenKey := loginOutcome.value.token][UserKey := stringify(loginOutcome.value.user)]
        && token == Some(loginOutcome.value.token) && user == Some(loginOutcome.value.user) && hasVerifiedProfile
    {
      isLoading := true;
      match created {
        case Err(e) =>
          navigate, error := None, Some(ErrorMessage(e, "Erro ao criar conta"));
        case Ok(_) =>
          var loginError;
          navigate, loginError := Login(loginOutcome);
          if loginError.Some? {
            error := Some(ErrorMessage(RequestError(false, None), "Erro ao criar conta"));
          } else {
            error := None;
          }
      }
      isLoading := false;
    }
  }

  /** After logout nobody is authenticated. */
  lemma LoggedOutIsAnonymous(token: Option<string>)
    ensures !IsAuthenticated(None, token)
    ensures !IsAuthenticated(None, None)
  {
  }

  /** A login response yields an authenticated session exactly when its token is non-empty. */
  lemma LoginAuthenticates(response: AuthResponse)
    ensures IsAuthenticated(Some(response.user), Some(response.token)) <==> response.token != ""
  {
  }

  /** The error text is the server's message whenever it has one, else the fallback; it is
      never empty when the fallback is not. */
  lemma ErrorMessageNonEmpty(e: RequestError, fallback: string)
    requires fallback != ""
    ensures ErrorMessage(e, fallback) != ""
  {
  }
}
