/**
 * The step gate (`src/components/AuthGuard.js`): a page is rendered only for a
 * signed-in user who has stored a profile and requirements, as far as the page asks.
 * The checks run in a fixed order (login, profile, requirements) and the first one
 * that fails decides where the user is sent.
 */
module AuthGuard {
  import opened Storage

  /** What the guard renders: the page itself, or a `<Navigate>` to `target`. */
  datatype Decision = Allow | Redirect(target: string)

  /** `AuthGuard({ requireProfile, requireRequirements })` for a user who is or is not signed in. */
  function Guard(authenticated: bool, requireProfile: bool, requireRequirements: bool, store: Store): (d: Decision)
    ensures !authenticated ==> d == Redirect("/login")
    ensures authenticated && requireProfile && !Present(store, ProfileKey) ==> d == Redirect("/profile")
    ensures d == Redirect("/requirements") <==>
              authenticated && (!requireProfile || Present(store, ProfileKey)) &&
              requireRequirements && !Present(store, RequirementsKey)
    ensures d == Allow <==>
              authenticated && (requireProfile ==> Present(store, ProfileKey)) &&
              (requireRequirements ==> Present(store, RequirementsKey))
    ensures d.Redirect? ==> d.target in {"/login", "/profile", "/requirements"}
  {
    if !authenticated then Redirect("/login")
    else if requireProfile && !Present(store, ProfileKey) then Redirect("/profile")
    else if requireRequirements && !Present(store, RequirementsKey) then Redirect("/requirements")
    else Allow
  }

  /** The flags of the guard; both default to true. */
  datatype Flags = Flags(requireProfile: bool, requireRequirements: bool)

  const Defaults: Flags := Flags(true, true)

  /** `withProfileCheck`: a profile is needed, requirements are not. */
  const WithProfileCheck: Flags := Flags(true, false)

  /** `withFullCheck`: both are needed. */
  const WithFullCheck: Flags := Flags(true, true)

  function GuardWith(flags: Flags, authenticated: bool, store: Store): Decision {
    Guard(authenticated, flags.requireProfile, flags.requireRequirements, store)
  }

  /** An unauthenticated user goes to `/login`, whatever the flags and the store hold. */
  lemma {:induction false} LoginFirst(rp: bool, rr: bool, store: Store)
    ensures Guard(false, rp, rr, store) == Redirect("/login")
  {
  }

  /** With both flags off, every signed-in user gets the page. */
  lemma {:induction false} NoFlagsAllowsSignedIn(store: Store)
    ensures Guard(true, false, false, store) == Allow
  {
  }

  /** The full check is the default, and the profile check differs from it only on the requirements key. */
  lemma {:induction false} Presets(authenticated: bool, store: Store)
    ensures GuardWith(WithFullCheck, authenticated, store) == GuardWith(Defaults, authenticated, store)
    ensures GuardWith(WithProfileCheck, authenticated, store) != GuardWith(WithFullCheck, authenticated, store) <==>
              authenticated && Present(store, ProfileKey) && !Present(store, RequirementsKey)
  {
  }

  /** One set of flags demands at most what another does. */
  predicate Weaker(f: Flags, g: Flags) {
    (f.requireProfile ==> g.requireProfile) && (f.requireRequirements ==> g.requireRequirements)
  }

  /** Every key present in `s` is present in `t`. */
  predicate MorePresent(s: Store, t: Store) {
    (Present(s, ProfileKey) ==> Present(t, ProfileKey)) &&
    (Present(s, RequirementsKey) ==> Present(t, RequirementsKey))
  }

  /** Storing more keys or asking for less never turns a rendered page into a redirect. */
  lemma {:induction false} Monotone(f: Flags, g: Flags, s: Store, t: Store, authenticated: bool)
    requires Weaker(f, g) && MorePresent(s, t)
    ensures GuardWith(g, authenticated, s) == Allow ==> GuardWith(f, authenticated, t) == Allow
  {
  }

  /** Only the two probed keys matter: stores that agree on them get the same decision. */
  lemma {:induction false} OnlyTwoKeys(s: Store, t: Store, authenticated: bool, rp: bool, rr: bool)
    requires Present(s, ProfileKey) == Present(t, ProfileKey)
    requires Present(s, RequirementsKey) == Present(t, RequirementsKey)
    ensures Guard(authenticated, rp, rr, s) == Guard(authenticated, rp, rr, t)
  {
  }
}
