/** The application shell: who is signed in, how that survives a reload
    through the browser store, and which page each path shows. */
module App {
  import opened Wrappers
  import opened Text
  import opened BrowserStorage
  import opened Entities

  const UserKey: string := "jobTracker_user"

  /** What the mount-time effect does with the stored user: nothing when the
      key is missing or holds the empty string, sign the user in when the
      string parses, and throw out of the effect when it does not; with no
      error boundary the whole application's component tree is then taken
      down. RestoreFailed marks that case; the model does not follow the
      application past it. */
  datatype RestoreOutcome = NoSession | Restored(user: User) | RestoreFailed

  function RestoreResult(items: map<string, string>, codec: Codec<User>): (outcome: RestoreOutcome)
    ensures outcome.NoSession? <==> UserKey !in items || items[UserKey] == ""
    ensures outcome.Restored? ==> codec.decode(items[UserKey]) == Some(outcome.user)
    ensures outcome.RestoreFailed? <==> UserKey in items && items[UserKey] != "" && codec.decode(items[UserKey]).None?
  {
    if UserKey in items && items[UserKey] != "" then
      match codec.decode(items[UserKey])
      case Some(u) => Restored(u)
      case None => RestoreFailed
    else NoSession
  }

  /** A user stored by `handleLogin` is signed in again by the next mount, and
      after `handleLogout` the next mount finds no session. */
  lemma SessionSurvivesReload(items: map<string, string>, codec: Codec<User>, u: User)
    requires Faithful(codec)
    ensures RestoreResult(items[UserKey := codec.encode(u)], codec) == Restored(u)
    ensures RestoreResult(items - {UserKey}, codec) == NoSession
  {
    assert codec.decode(codec.encode(u)) == Some(u) && codec.encode(u) != "";
  }

  /** The `App` component's state. */
  class AppState {
    var user: Option<User>
    var isAuthenticated: bool
    const storage: LocalStorage
    const codec: Codec<User>

    /** The two fields move together: authenticated exactly when a user is
        held. */
    ghost predicate Valid()
      reads this
    {
      isAuthenticated <==> user.Some?
    }

    /** Nobody is signed in before the mount-time effect runs. */
    constructor (storage: LocalStorage, codec: Codec<User>)
      ensures this.storage == storage && this.codec == codec
      ensures user == None && !isAuthenticated && Valid()
    {
      this.storage := storage;
      this.codec := codec;
      user := None;
      isAuthenticated := false;
    }

    /** The mount-time effect. */
    method Restore() returns (outcome: RestoreOutcome)
      requires Valid()
      modifies this`user, this`isAuthenticated
      ensures Valid()
      ensures outcome == RestoreResult(storage.items, codec)
      ensures outcome.Restored? ==> user == Some(outcome.user) && isAuthenticated
      ensures !outcome.Restored? ==> user == old(user) && isAuthenticated == old(isAuthenticated)
    {
      var stored := storage.GetItem(UserKey);
      if stored.Some? && stored.value != "" {
        var parsed := codec.decode(stored.value);
        if parsed.Some? {
          user := parsed;
          isAuthenticated := true;
          outcome := Restored(parsed.value);
        } else {
          outcome := RestoreFailed;
        }
      } else {
        outcome := NoSession;
      }
    }

    /** `handleLogin`: signs the user in and stores them under their key,
        leaving every other key alone. */
    method HandleLogin(u: User)
      modifies this`user, this`isAuthenticated, storage
      ensures user == Some(u) && isAuthenticated && Valid()
      ensures storage.items == old(storage.items)[UserKey := codec.encode(u)]
    {
      user := Some(u);
      isAuthenticated := true;
      storage.SetItem(UserKey, codec.encode(u));
    }

    /** `handleLogout`: signs out and removes the stored user and nothing else. */
    method HandleLogout()
      modifies this`user, this`isAuthenticated, storage
      ensures user == None && !isAuthenticated && Valid()
      ensures storage.items == old(storage.items) - {UserKey}
    {
      user := None;
      isAuthenticated := false;
      storage.RemoveItem(UserKey);
    }

    /** What the router shows at `path` in the current state. */
    method Show(path: string) returns (element: Element)
      ensures element == Route(path, isAuthenticated)
    {
      element := Route(path, isAuthenticated);
    }
  }

  /** The pages the router can show. */
  datatype Page = LandingPage | LoginPage | RegisterPage | HomePage | JobDetailsPage(jobId: string) | ErrorPage

  /** A route's element: a page, or a replacing navigation to another path. */
  datatype Element = Render(page: Page) | Redirect(to: string)

  /** `ProtectedRoute`: the page when signed in, otherwise off to the sign-in
      page. */
  function Protected(isAuthenticated: bool, page: Page): (e: Element)
    ensures e.Render? <==> isAuthenticated
    ensures e.Render? ==> e.page == page
    ensures e.Redirect? ==> e.to == "/login"
  {
    if isAuthenticated then Render(page) else Redirect("/login")
  }

  /** `/job/:id`: the prefix followed by one non-empty path segment. */
  predicate IsJobPath(path: string) {
    StartsWith(path, "/job/") && |path| > 5 && forall i :: 5 <= i < |path| ==> path[i] != '/'
  }

  /** The route table. The router ranks its routes by how specific they are
      rather than trying them in order; since the literal paths, the
      `/job/:id` pattern and the `*` fallback never match the same path, the
      ranking picks exactly the branch written here. */
  function Route(path: string, isAuthenticated: bool): (e: Element)
    ensures e.Redirect? ==> e.to == "/login" || e.to == "/home" || e.to == "/404"
    ensures e.Render? && !isAuthenticated ==> e.page in {LandingPage, LoginPage, RegisterPage, ErrorPage}
  {
    if path == "/" then Render(LandingPage)
    else if path == "/login" then
      (if isAuthenticated then Redirect("/home") else Render(LoginPage))
    else if path == "/register" then
      (if isAuthenticated then Redirect("/home") else Render(RegisterPage))
    else if path == "/home" then Protected(isAuthenticated, HomePage)
    else if IsJobPath(path) then Protected(isAuthenticated, JobDetailsPage(path[5..]))
    else if path == "/404" then Render(ErrorPage)
    else Redirect("/404")
  }

  /** The static paths are not job paths. */
  lemma StaticPathsAreNotJobPaths()
    ensures !IsJobPath("/") && !IsJobPath("/login") && !IsJobPath("/register")
    ensures !IsJobPath("/home") && !IsJobPath("/404")
  {
    assert |"/"| <= 5;
    assert "/login"[1] != "/job/"[1];
    assert "/register"[1] != "/job/"[1];
    assert "/home"[1] != "/job/"[1];
    assert |"/404"| <= 5;
  }

  /** The dashboard and a job's details render exactly when signed in and
      otherwise send the visitor to the sign-in page; a job path shows the
      job its segment names. */
  lemma ProtectedPaths(path: string, isAuthenticated: bool)
    requires path == "/home" || IsJobPath(path)
    ensures Route(path, isAuthenticated).Render? <==> isAuthenticated
    ensures !isAuthenticated ==> Route(path, isAuthenticated) == Redirect("/login")
    ensures isAuthenticated && IsJobPath(path) ==> Route(path, true) == Render(JobDetailsPage(path[5..]))
    ensures isAuthenticated && path == "/home" ==> Route(path, true) == Render(HomePage)
  {
    StaticPathsAreNotJobPaths();
    if IsJobPath(path) {
      assert path != "/" && path != "/login" && path != "/register" && path != "/home";
    }
  }

  /** The sign-in and registration pages are for visitors only: a signed-in
      user is sent to the dashboard. */
  lemma GuestPaths(isAuthenticated: bool)
    ensures Route("/login", isAuthenticated) == if isAuthenticated then Redirect("/home") else Render(LoginPage)
    ensures Route("/register", isAuthenticated) == if isAuthenticated then Redirect("/home") else Render(RegisterPage)
  {
  }

  /** A path outside the table goes to the error page; the landing page and
      the error page render for everyone. */
  lemma PublicAndUnknownPaths(path: string, isAuthenticated: bool)
    ensures Route("/", isAuthenticated) == Render(LandingPage)
    ensures Route("/404", isAuthenticated) == Render(ErrorPage)
    ensures path !in {"/", "/login", "/register", "/home", "/404"} && !IsJobPath(path) ==>
      Route(path, isAuthenticated) == Redirect("/404")
  {
    StaticPathsAreNotJobPaths();
  }

  /** Redirects settle after one step: the target of every redirect renders a
      page in the same state, so the router never loops. */
  lemma RedirectsSettle(path: string, isAuthenticated: bool)
    ensures Route(path, isAuthenticated).Redirect? ==>
      Route(Route(path, isAuthenticated).to, isAuthenticated).Render?
  {
    StaticPathsAreNotJobPaths();
  }

  /** Signing in from either form: the callback stores the session and the
      navigation to `/home` then shows the dashboard. A form that stays puts
      nothing in the store. */
  method CompleteSignIn(app: AppState, effect: SignIn) returns (shown: Option<Element>)
    modifies app, app.storage
    ensures effect.SignedIn? ==>
      && app.user == Some(effect.user) && app.isAuthenticated
      && app.storage.items == old(app.storage.items)[UserKey := app.codec.encode(effect.user)]
      && shown == Some(Render(HomePage))
    ensures effect.StayOnForm? ==>
      && app.user == old(app.user) && app.isAuthenticated == old(app.isAuthenticated)
      && app.storage.items == old(app.storage.items) && shown == None
  {
    if effect.SignedIn? {
      app.HandleLogin(effect.user);
      StaticPathsAreNotJobPaths();
      var element := app.Show("/home");
      shown := Some(element);
    } else {
      shown := None;
    }
  }
}
