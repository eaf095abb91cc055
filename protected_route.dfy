/** The route guard: a spinner while the session loads, a redirect to sign-in without a
    session, a redirect to `/unauthorized` for the wrong account type, else the page. */
module ProtectedRoute {
  import opened Wrappers
  import opened AuthTypes

  datatype Rendered = Spinner | Nothing | Children

  /** The effect's redirect and the rendered output. */
  datatype Decision = Decision(redirect: Option<string>, rendered: Rendered)

  /** `requiredAccountType && user?.accountType !== requiredAccountType`. */
  predicate WrongAccount(user: Option<User>, required: Option<AccountType>) {
    required.Some? && (user.None? || user.value.accountType != required.value)
  }

  function Decide(isLoading: bool, isAuthenticated: bool, user: Option<User>, required: Option<AccountType>): (d: Decision)
    ensures isLoading ==> d == Decision(None, Spinner)
  {
    var redirect :=
      if isLoading then None
      else if !isAuthenticated then Some("/signin")
      else if WrongAccount(user, required) then Some("/unauthorized")
      else None;
    var rendered :=
      if isLoading then Spinner
      else if !isAuthenticated then Nothing
      else if WrongAccount(user, required) then Nothing
      else Children;
    Decision(redirect, rendered)
  }

  /** Without a session the guard goes to sign-in whatever account type is required, so the
      session check comes before the type check. */
  lemma SignInFirst(user: Option<User>, required: Option<AccountType>)
    ensures Decide(false, false, user, required) == Decision(Some("/signin"), Nothing)
  {
  }

  /** A session of the wrong account type goes to `/unauthorized`. */
  lemma WrongTypeUnauthorized(user: User, required: AccountType)
    requires user.accountType != required
    ensures Decide(false, true, Some(user), Some(required)) == Decision(Some("/unauthorized"), Nothing)
  {
  }

  /** The page renders iff the session is loaded, present, and of the required type (or no
      type is required); it renders nothing exactly when a redirect is issued. */
  lemma ChildrenIff(isLoading: bool, isAuthenticated: bool, user: Option<User>, required: Option<AccountType>)
    ensures var d := Decide(isLoading, isAuthenticated, user, required);
      && (d.rendered == Children <==>
            !isLoading && isAuthenticated && (required.None? || (user.Some? && user.value.accountType == required.value)))
      && (d.rendered == Nothing <==> d.redirect.Some?)
      && (d.redirect.Some? ==> d.redirect.value in {"/signin", "/unauthorized"})
  {
  }
}
