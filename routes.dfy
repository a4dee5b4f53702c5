/**
 * The route table of the application (`src/App.js`): which paths are public and
 * which flags guard the others. Together with the gate this rules out redirect
 * loops: every redirect lands on a page that renders.
 */
module Routes {
  import opened Wrappers
  import opened Storage
  import opened AuthGuard

  /** A route: its path pattern and, for a guarded page, the gate's flags. */
  datatype Route = Route(path: string, guard: Option<Flags>)

  const PublicPaths: set<string> :=
    {"/", "/login", "/signup", "/about", "/test-auth", "/forgot-password", "/reset-password"}

  const ProfileRoute: Route := Route("/profile", Some(Flags(false, false)))
  const RequirementsRoute: Route := Route("/requirements", Some(Flags(true, false)))
  const DashboardRoute: Route := Route("/dashboard", Some(Flags(true, true)))

  /** The routes in declaration order. */
  const Table: seq<Route> := [
    Route("/", None),
    Route("/login", None),
    Route("/signup", None),
    Route("/about", None),
    Route("/test-auth", None),
    Route("/forgot-password", None),
    Route("/reset-password", None),
    ProfileRoute,
    RequirementsRoute,
    DashboardRoute,
    Route("/university/:id", Some(Flags(true, true))),
    Route("/assessment/:universityId", Some(Flags(true, true))),
    Route("/feedback/:universityId", Some(Flags(true, true)))
  ]

  /** What visiting a route renders: a public page always, a guarded one as its gate decides. */
  function Visit(r: Route, authenticated: bool, store: Store): (d: Decision)
    ensures r.guard.None? ==> d == Allow
    ensures r.guard.Some? ==> d == GuardWith(r.guard.value, authenticated, store)
  {
    match r.guard
    case None => Allow
    case Some(flags) => GuardWith(flags, authenticated, store)
  }

  /** `path` is declared by a route of the table that renders for this user. */
  predicate RendersAt(path: string, authenticated: bool, store: Store) {
    exists r | r in Table :: r.path == path && Visit(r, authenticated, store) == Allow
  }

  /** The public pages are exactly the unguarded routes. */
  lemma {:induction false} PublicRoutes()
    ensures forall r | r in Table :: r.guard.None? <==> r.path in PublicPaths
  {
    forall i | 0 <= i < |Table| ensures Table[i].guard.None? <==> Table[i].path in PublicPaths {
      if i < 7 {
        assert Table[i].guard.None?;
      } else {
        GuardedPathPrivate(i);
      }
    }
  }

  /** The path of a guarded route is not public. */
  lemma {:induction false} GuardedPathPrivate(i: nat)
    requires 7 <= i < |Table|
    ensures Table[i].guard.Some? && Table[i].path !in PublicPaths
  {
    var p := Table[i].path;
    assert |p| > 1 && p[1] in "prdua f";
  }

  /** A guarded route that asks for requirements asks for a profile as well. */
  predicate ProfileBeforeRequirements(r: Route) {
    r.guard.Some? ==> (r.guard.value.requireRequirements ==> r.guard.value.requireProfile)
  }

  /** No route asks for requirements without asking for a profile. */
  lemma {:induction false} RequirementsNeedProfile()
    ensures forall r | r in Table :: ProfileBeforeRequirements(r)
  {
  }

  /** No two routes declare the same path, so a redirect target names one route. */
  lemma {:induction false} PathsDistinct()
    ensures forall i, j | 0 <= i < j < |Table| :: Table[i].path != Table[j].path
  {
  }

  /** No route redirects to itself, signed in or not. */
  lemma {:induction false} NoSelfRedirect(r: Route, authenticated: bool, store: Store)
    requires r in Table
    ensures Visit(r, authenticated, store).Redirect? ==> Visit(r, authenticated, store).target != r.path
  {
  }

  /**
   * Under flags that never ask for requirements without a profile, a redirect goes to
   * the login page, to the unguarded profile page, or to the requirements page with a
   * profile already stored.
   */
  lemma {:induction false} RedirectLands(f: Flags, authenticated: bool, store: Store)
    requires f.requireRequirements ==> f.requireProfile
    requires GuardWith(f, authenticated, store).Redirect?
    ensures var t := GuardWith(f, authenticated, store).target;
            || t == "/login"
            || (t == "/profile" && authenticated)
            || (t == "/requirements" && GuardWith(RequirementsRoute.guard.value, authenticated, store) == Allow)
  {
  }

  /** The three places a redirect can land each render in the case `RedirectLands` names. */
  lemma {:induction false} LandingRenders(t: string, authenticated: bool, store: Store)
    requires || t == "/login"
             || (t == "/profile" && authenticated)
             || (t == "/requirements" && GuardWith(RequirementsRoute.guard.value, authenticated, store) == Allow)
    ensures RendersAt(t, authenticated, store)
  {
    var login := Table[1];
    if t == "/login" {
      assert login in Table && login.path == t && Visit(login, authenticated, store) == Allow;
    } else if t == "/profile" {
      assert ProfileRoute in Table && Visit(ProfileRoute, authenticated, store) == Allow;
    } else {
      assert RequirementsRoute in Table && Visit(RequirementsRoute, authenticated, store) == Allow;
    }
  }

  /** Following one redirect always reaches a route that renders. */
  lemma {:induction false} OneHopConverges(r: Route, authenticated: bool, store: Store)
    requires r in Table
    requires Visit(r, authenticated, store).Redirect?
    ensures RendersAt(Visit(r, authenticated, store).target, authenticated, store)
  {
    var f := r.guard.value;
    assert ProfileBeforeRequirements(r) by {
      RequirementsNeedProfile();
    }
    RedirectLands(f, authenticated, store);
    LandingRenders(Visit(r, authenticated, store).target, authenticated, store);
  }

  /** Once the profile page has stored a non-empty profile, the requirements page renders. */
  lemma {:induction false} AfterProfileSubmit(store: Store, blob: string)
    requires blob != ""
    ensures Visit(RequirementsRoute, true, SetItem(store, ProfileKey, blob)) == Allow
  {
  }

  /** Once the requirements page has stored its record as well, the dashboard renders. */
  lemma {:induction false} AfterRequirementsSubmit(store: Store, blob: string)
    requires Present(store, ProfileKey) && blob != ""
    ensures Visit(DashboardRoute, true, SetItem(store, RequirementsKey, blob)) == Allow
  {
  }
}
