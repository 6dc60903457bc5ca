/** The authentication flag (auth/AuthContext.tsx): a provider holding
    `isAuthenticated`, set by `login` and cleared by `logout`, and the
    default context used outside any provider, whose actions do nothing. */
module Auth {

  datatype AuthAction = Login | Logout

  /** The provider's effect of one action on the flag. */
  function Apply(isAuthenticated: bool, action: AuthAction): (r: bool)
    ensures r <==> action == Login
  {
    match action
    case Login => true
    case Logout => false
  }

  /** The flag after a sequence of actions, in the provider when
      `inProvider`, in the default context otherwise. In the provider the
      last action decides the flag, whatever came before; the default
      context's `login` and `logout` do nothing, so its flag never leaves
      its initial value. */
  function ApplyAll(inProvider: bool, isAuthenticated: bool, actions: seq<AuthAction>): (r: bool)
    ensures r == if inProvider && actions != [] then actions[|actions| - 1] == Login else isAuthenticated
  {
    if actions == [] then isAuthenticated
    else
      var before := ApplyAll(inProvider, isAuthenticated, actions[..|actions| - 1]);
      if inProvider then Apply(before, actions[|actions| - 1]) else before
  }

  /** The provider's state. */
  class AuthProvider {
    var isAuthenticated: bool

    /** `useState(false)`. */
    constructor ()
      ensures !isAuthenticated
    {
      isAuthenticated := false;
    }

    method Login()
      modifies this
      ensures isAuthenticated == Apply(old(isAuthenticated), AuthAction.Login)
    {
      isAuthenticated := true;
    }

    method Logout()
      modifies this
      ensures isAuthenticated == Apply(old(isAuthenticated), AuthAction.Logout)
    {
      isAuthenticated := false;
    }
  }
}
