/**
 * The login gate around the signed-in pages (components/auth/protected-route.tsx): what
 * it renders for the current authentication state, and the login modal that its effect
 * opens and its two handlers close.
 */
module ProtectedRoute {
  import opened Wrappers

  /** What `useAuth()` reports; `user` is the signed-in user's identity, `None` for null. */
  datatype Auth = Auth(user: Option<string>, loading: bool, isGuest: bool)

  /** The effect's dependency list `[user, loading]`. */
  datatype Deps = Deps(user: Option<string>, loading: bool)

  function DepsOf(auth: Auth): Deps {
    Deps(auth.user, auth.loading)
  }

  /** The effect's test: loading is over and there is neither a user nor a guest. */
  predicate NeedsLogin(auth: Auth) {
    !auth.loading && auth.user.None? && !auth.isGuest
  }

  /** What the gate renders: nothing while loading; otherwise the page, whose children are
      shown exactly for a user or a guest, and the modal as the state says. */
  datatype View = Nothing | Gate(showsChildren: bool, modalOpen: bool)

  function Render(auth: Auth, showLoginModal: bool): (r: View)
    ensures r.Nothing? <==> auth.loading
    ensures r.Gate? ==> (r.showsChildren <==> auth.user.Some? || auth.isGuest)
    ensures r.Gate? ==> r.modalOpen == showLoginModal
  {
    if auth.loading then Nothing else Gate(auth.user.Some? || auth.isGuest, showLoginModal)
  }

  /** Whenever the effect would ask for a login, the protected children are hidden; and
      children are never shown while loading. */
  lemma ChildrenNeedAUserOrGuest(auth: Auth, showLoginModal: bool)
    ensures NeedsLogin(auth) ==> Render(auth, showLoginModal) == Gate(false, showLoginModal)
    ensures Render(auth, showLoginModal).Gate? && Render(auth, showLoginModal).showsChildren ==>
      !auth.loading && !NeedsLogin(auth)
  {
  }

  class LoginGate {
    var showLoginModal: bool
    /** The paths passed to `router.push`, in order. */
    var navigations: seq<string>
    /** The dependencies of the effect's last run. */
    var lastDeps: Deps

    /** The first render: the modal state starts closed and the effect runs once. */
    constructor(auth: Auth)
      ensures showLoginModal == NeedsLogin(auth)
      ensures navigations == [] && lastDeps == DepsOf(auth)
    {
      showLoginModal := NeedsLogin(auth);
      navigations := [];
      lastDeps := DepsOf(auth);
    }

    /** A render with a new authentication state: the effect runs only if `user` or
        `loading` changed, and then only ever opens the modal. */
    method Rerender(auth: Auth)
      modifies this
      ensures lastDeps == DepsOf(auth) && navigations == old(navigations)
      ensures DepsOf(auth) == old(lastDeps) ==> showLoginModal == old(showLoginModal)
      ensures DepsOf(auth) != old(lastDeps) ==> showLoginModal == (old(showLoginModal) || NeedsLogin(auth))
      ensures showLoginModal && !old(showLoginModal) ==> NeedsLogin(auth) && DepsOf(auth) != old(lastDeps)
    {
      if DepsOf(auth) != lastDeps {
        if NeedsLogin(auth) {
          showLoginModal := true;
        }
        lastDeps := DepsOf(auth);
      }
    }

    /** `handleLoginSuccess`: the modal closes and the page stays. */
    method LoginSuccess()
      modifies this
      ensures !showLoginModal && navigations == old(navigations) && lastDeps == old(lastDeps)
    {
      showLoginModal := false;
    }

    /** `handleCloseModal`: the modal closes and the app goes back to the home page. */
    method CloseModal()
      modifies this
      ensures !showLoginModal && navigations == old(navigations) + ["/"] && lastDeps == old(lastDeps)
    {
      showLoginModal := false;
      navigations := navigations + ["/"];
    }
  }
}
