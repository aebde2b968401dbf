/** The access gate of the client: the stored login, the route guard, the password
    check with its redirect, and where "/" leads. The stored value, the route and
    the navigation state are parameters; storage writes and navigation are results. */
module App {
  import opened Text
  import opened Collections
  import opened Api

  /** The login kept under "impLinks_auth"; `workspace` "" is `null`. */
  datatype Auth = Auth(isAuthenticated: bool, workspace: string)

  const SignedOut := Auth(false, "")

  /** What storage holds: nothing, text that is not JSON, or a parsed login. */
  datatype Stored = Absent | Unparsable | Saved(auth: Auth)

  /** `getInitialAuth` */
  function InitialAuth(stored: Stored): (a: Auth)
    ensures stored.Absent? || stored.Unparsable? ==> a == SignedOut
    ensures stored.Saved? ==> a == stored.auth
  {
    match stored
    case Absent => SignedOut
    case Unparsable => SignedOut
    case Saved(auth) => auth
  }

  /** Where a route renders: its page, or a redirect that remembers where it came from. */
  datatype Route = Page | Redirect(to: string, from: Option<string>)

  /** `ProtectedRoute`: a signed-out visitor, or one signed into another workspace
      than the route's, is sent to /login with the path remembered. `routeWorkspace`
      "" is a route that names none. */
  function Protected(stored: Stored, routeWorkspace: string, path: string): (r: Route)
    ensures r == Page <==> InitialAuth(stored).isAuthenticated && InitialAuth(stored).workspace != ""
                           && (routeWorkspace == "" || InitialAuth(stored).workspace == routeWorkspace)
    ensures r != Page ==> r == Redirect("/login", Some(path))
  {
    var auth := InitialAuth(stored);
    if !auth.isAuthenticated || auth.workspace == "" then Redirect("/login", Some(path))
    else if routeWorkspace != "" && auth.workspace != routeWorkspace then Redirect("/login", Some(path))
    else Page
  }

  /** The path of a workspace's page: /office for "office", /personal for anything else. */
  function WorkspacePath(workspace: string): (p: string)
    ensures workspace == "office" ==> p == "/office"
    ensures workspace != "office" ==> p == "/personal"
  {
    if workspace == "office" then "/office" else "/personal"
  }

  /** The hard-coded password of each workspace. */
  function Password(workspace: string): Option<string> {
    if workspace == "office" then Some("office123")
    else if workspace == "personal" then Some("personal123")
    else None
  }

  /** The result of `handleLogin`: an error to show, or the login to store and the
      path to go to. */
  datatype Login = LoginError(message: string) | LoggedIn(saved: Auth, to: string)

  /** `handleLogin`: a blank password and a wrong one are refused (the password is
      compared as typed); a right one stores the login and goes back where the
      visitor came from, unless that is missing or /login, else to the workspace. */
  function HandleLogin(workspace: string, password: string, from: Option<string>): (r: Login)
    ensures Blank(password) ==> r == LoginError("Password is required")
    ensures !Blank(password) && Some(password) != Password(workspace) ==> r == LoginError("Incorrect password")
    ensures r.LoggedIn? <==> !Blank(password) && Some(password) == Password(workspace)
    ensures r.LoggedIn? ==> r.saved == Auth(true, workspace)
    ensures r.LoggedIn? && from.Some? && from.value != "" && from.value != "/login" ==> r.to == from.value
    ensures r.LoggedIn? && (from.None? || from.value == "" || from.value == "/login") ==> r.to == WorkspacePath(workspace)
  {
    TrimEmptyIffBlank(password);
    if Trim(password) == "" then LoginError("Password is required")
    else if Some(password) != Password(workspace) then LoginError("Incorrect password")
    else
      var to := if from.Some? && from.value != "" && from.value != "/login" then from.value else WorkspacePath(workspace);
      LoggedIn(Auth(true, workspace), to)
  }

  /** Only the two workspaces have a password, so a login always names one of them. */
  lemma LoginIsToAWorkspace(workspace: string, password: string, from: Option<string>)
    requires HandleLogin(workspace, password, from).LoggedIn?
    ensures workspace in Workspaces
  {
  }

  /** After a login the guard lets the visitor into their workspace's page, and into
      any route that names no workspace, and nowhere else that names one. */
  lemma LoginOpensOwnWorkspace(workspace: string, password: string, from: Option<string>, route: string, path: string)
    requires HandleLogin(workspace, password, from).LoggedIn?
    ensures var stored := Saved(HandleLogin(workspace, password, from).saved);
            Protected(stored, route, path) == Page <==> route == "" || route == workspace
  {
  }

  /** `RootRedirect`: a signed-in visitor goes to their workspace page, anyone else
      to /login. */
  function RootRedirect(stored: Stored): (to: string)
    ensures InitialAuth(stored).isAuthenticated && InitialAuth(stored).workspace != "" ==>
              to == WorkspacePath(InitialAuth(stored).workspace)
    ensures !(InitialAuth(stored).isAuthenticated && InitialAuth(stored).workspace != "") ==> to == "/login"
  {
    var auth := InitialAuth(stored);
    if auth.isAuthenticated && auth.workspace != "" then WorkspacePath(auth.workspace) else "/login"
  }

  /** "/" never leads a visitor to a page the guard then refuses, as long as the stored
      workspace is one of the two: its page's guard admits them. */
  lemma RootLeadsToAdmittedPage(stored: Stored)
    requires InitialAuth(stored).isAuthenticated && InitialAuth(stored).workspace in Workspaces
    ensures var to := RootRedirect(stored);
            Protected(stored, to[1..], to) == Page
  {
  }
}
