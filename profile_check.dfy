/**
 * The `useProfileCheck` hook (`src/hooks/useProfileCheck.js`): an effect that
 * navigates away in the same order as the step gate, and the status flags the hook
 * returns to its page.
 */
module ProfileCheck {
  import opened Wrappers
  import opened Storage
  import opened AuthGuard

  /**
   * The effect's decision, with its early returns: the first failed check names the
   * page to navigate to, and `None` means the effect navigates nowhere.
   */
  method Navigation(authenticated: bool, requireProfile: bool, requireRequirements: bool, store: Store)
    returns (target: Option<string>)
    ensures target.None? <==> Guard(authenticated, requireProfile, requireRequirements, store) == Allow
    ensures target.Some? ==> Guard(authenticated, requireProfile, requireRequirements, store) == Redirect(target.value)
  {
    if !authenticated {
      return Some("/login");
    }
    if requireProfile {
      if !Present(store, ProfileKey) {
        return Some("/profile");
      }
    }
    if requireRequirements {
      if !Present(store, RequirementsKey) {
        return Some("/requirements");
      }
    }
    return None;
  }

  /** The router's `navigate`: every call appends its target to the history. */
  class Navigator {
    var history: seq<string>

    constructor()
      ensures history == []
    {
      history := [];
    }

    method Navigate(target: string)
      modifies this
      ensures history == old(history) + [target]
    {
      history := history + [target];
    }
  }

  /** The pages a decision sends the user to: none, or the redirect target. */
  function Targets(d: Decision): (ts: seq<string>)
    ensures |ts| <= 1
    ensures ts == [] <==> d == Allow
  {
    match d
    case Allow => []
    case Redirect(t) => [t]
  }

  /** The status flags the hook returns. */
  datatype Status = Status(isAuthenticated: bool, hasProfile: bool, hasRequirements: bool, isFullyComplete: bool)

  /** The returned flags: truthiness of the user and of the two stored strings. */
  function StatusOf(authenticated: bool, store: Store): (s: Status)
    ensures s.isAuthenticated == authenticated
    ensures s.hasProfile == Present(store, ProfileKey)
    ensures s.hasRequirements == Present(store, RequirementsKey)
    ensures s.isFullyComplete <==> s.hasProfile && s.hasRequirements
  {
    var p := Present(store, ProfileKey);
    var q := Present(store, RequirementsKey);
    Status(authenticated, p, q, p && q)
  }

  /**
   * `useProfileCheck(requireProfile, requireRequirements)`: one run of the effect
   * navigates at most once, to the gate's redirect target, and the returned flags do
   * not depend on the requirement flags.
   */
  method UseProfileCheck(nav: Navigator, authenticated: bool, requireProfile: bool, requireRequirements: bool,
                         store: Store)
    returns (status: Status)
    modifies nav
    ensures nav.history == old(nav.history) + Targets(Guard(authenticated, requireProfile, requireRequirements, store))
    ensures status == StatusOf(authenticated, store)
  {
    var target := Navigation(authenticated, requireProfile, requireRequirements, store);
    if target.Some? {
      nav.Navigate(target.value);
    }
    status := StatusOf(authenticated, store);
  }

  /** `useSecurityCheck()`: the hook with both requirements, the defaults. */
  method UseSecurityCheck(nav: Navigator, authenticated: bool, store: Store) returns (status: Status)
    modifies nav
    ensures nav.history == old(nav.history) + Targets(GuardWith(Defaults, authenticated, store))
    ensures status == StatusOf(authenticated, store)
  {
    status := UseProfileCheck(nav, authenticated, true, true, store);
  }

  /**
   * The flags agree with the gate: a signed-in user is fully complete exactly when the
   * full check lets the page render, and has a profile exactly when the profile check does.
   */
  lemma {:induction false} StatusMatchesGuard(authenticated: bool, store: Store)
    ensures var s := StatusOf(authenticated, store);
            && (s.isAuthenticated && s.isFullyComplete <==> GuardWith(WithFullCheck, authenticated, store) == Allow)
            && (s.isAuthenticated && s.hasProfile <==> GuardWith(WithProfileCheck, authenticated, store) == Allow)
  {
  }
}
