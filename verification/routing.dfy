/** Screen selection by sign-in state: the route guard
    (src/components/ProtectedRoute.tsx) and the root component
    (src/App.tsx). */
module Routing {
  import opened Wrappers

  /** The signed-in user as the auth context exposes it. */
  datatype AuthUser = AuthUser(uid: string, coupleId: Option<string>)

  /** `user.coupleId` as a condition: null, absent and "" are false. */
  predicate Linked(user: AuthUser)
  {
    user.coupleId.Some? && user.coupleId.value != ""
  }

  /** A guard's props; each defaults to false. */
  datatype Flags = Flags(isAuthPage: bool, requiresCoupleLinking: bool, requiresAuthAndCouple: bool)

  const AuthPageFlags := Flags(true, false, false)
  const LinkingFlags := Flags(false, true, false)
  const CoupleFlags := Flags(false, false, true)

  const AuthPath := "/auth"
  const LinkPath := "/link-couple"
  const HomePath := "/"

  datatype Screen = Spinner | Redirect(to: string) | Outlet

  /** The guard's decision. */
  function Guard(loading: bool, user: Option<AuthUser>, flags: Flags): (s: Screen)
    ensures loading ==> s == Spinner
    ensures !loading && flags.isAuthPage ==>
      s == (if user.None? then Outlet else if Linked(user.value) then Redirect(HomePath) else Redirect(LinkPath))
    ensures !loading && !flags.isAuthPage && user.None? ==> s == Redirect(AuthPath)
    ensures !loading && !flags.isAuthPage && user.Some? && flags.requiresCoupleLinking ==>
      s == (if Linked(user.value) then Redirect(HomePath) else Outlet)
    ensures !loading && !flags.isAuthPage && user.Some? && !flags.requiresCoupleLinking && flags.requiresAuthAndCouple ==>
      s == (if Linked(user.value) then Outlet else Redirect(LinkPath))
    ensures !loading && !flags.isAuthPage && user.Some? && !flags.requiresCoupleLinking && !flags.requiresAuthAndCouple ==>
      s == Outlet
  {
    if loading then Spinner
    else if flags.isAuthPage then
      if user.Some? then (if !Linked(user.value) then Redirect(LinkPath) else Redirect(HomePath))
      else Outlet
    else if user.None? then Redirect(AuthPath)
    else if flags.requiresCoupleLinking then (if Linked(user.value) then Redirect(HomePath) else Outlet)
    else if flags.requiresAuthAndCouple then (if !Linked(user.value) then Redirect(LinkPath) else Outlet)
    else Outlet
  }

  /** What a guarded route lets through: nothing protected without a user,
      the couple's pages only to a linked user, the linking page only to
      an unlinked one, and the sign-in page only to nobody. */
  lemma GuardProtects(loading: bool, user: Option<AuthUser>, flags: Flags)
    ensures Guard(loading, user, flags) == Outlet && !flags.isAuthPage ==> user.Some?
    ensures Guard(loading, user, flags) == Outlet && flags.isAuthPage ==> user.None?
    ensures Guard(loading, user, CoupleFlags) == Outlet ==> user.Some? && Linked(user.value)
    ensures Guard(loading, user, LinkingFlags) == Outlet ==> user.Some? && !Linked(user.value)
  {
  }

  /** The flags the route of each redirect target would carry. No route
      table mounts the guard, so this is an assumption about how it would
      be mounted, not a reading of the program. */
  function FlagsOf(path: string): Flags
    requires path in {AuthPath, LinkPath, HomePath}
  {
    if path == AuthPath then AuthPageFlags else if path == LinkPath then LinkingFlags else CoupleFlags
  }

  /** Following a redirect ends on a rendered route: the guard never sends
      a user round in circles. */
  lemma RedirectSettles(user: Option<AuthUser>, flags: Flags)
    ensures Guard(false, user, flags).Redirect? ==>
      var to := Guard(false, user, flags).to;
      to in {AuthPath, LinkPath, HomePath} && Guard(false, user, FlagsOf(to)) == Outlet
  {
  }

  // ---------------------------------------------------------------------------
  // The root component
  // ---------------------------------------------------------------------------

  datatype AppScreen = Loading | SignIn | Linking | Home

  function AppContent(loading: bool, user: Option<AuthUser>): (s: AppScreen)
    ensures loading <==> s == Loading
    ensures !loading ==> (s == SignIn <==> user.None?)
    ensures !loading && user.Some? ==> (s == Home <==> Linked(user.value))
  {
    if loading then Loading
    else if user.None? then SignIn
    else if !Linked(user.value) then Linking
    else Home
  }

  /** The root component shows the page whose guard would render: sign-in
      for nobody, linking for an unlinked user, home for a linked one. */
  lemma AppAgreesWithGuard(user: Option<AuthUser>)
    ensures AppContent(false, user) == SignIn <==> Guard(false, user, AuthPageFlags) == Outlet
    ensures AppContent(false, user) == Linking <==> Guard(false, user, LinkingFlags) == Outlet
    ensures AppContent(false, user) == Home <==> Guard(false, user, CoupleFlags) == Outlet
  {
  }
}
