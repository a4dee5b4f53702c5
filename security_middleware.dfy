/**
 * The guards of `src/utils/securityMiddleware.js`: completion read off the store, and
 * the three accessors that refuse to run for an incomplete user. `JSON.parse` enters
 * as the parameter `parse`, which turns a stored string into a record.
 */
module SecurityMiddleware {
  import opened Wrappers
  import opened Storage
  import opened AuthGuard

  /** A parsed record: an object from field names to values. */
  type Object<J> = map<string, J>

  /** What `checkProfileCompletion()` returns. */
  datatype Completion<J> = Completion(
    hasProfile: bool,
    hasRequirements: bool,
    isComplete: bool,
    profileData: Option<Object<J>>,
    requirementsData: Option<Object<J>>)

  /** A stored record is parsed only when its key is present. */
  function ParseIfPresent<J>(store: Store, key: string, parse: string -> Object<J>): (r: Option<Object<J>>)
    ensures r.Some? <==> Present(store, key)
    ensures r.Some? ==> r.value == parse(store[key])
  {
    if Present(store, key) then Some(parse(store[key])) else None
  }

  function CheckProfileCompletion<J>(store: Store, parse: string -> Object<J>): (c: Completion<J>)
    ensures c.hasProfile == Present(store, ProfileKey)
    ensures c.hasRequirements == Present(store, RequirementsKey)
    ensures c.isComplete <==> c.hasProfile && c.hasRequirements
    ensures c.profileData.Some? <==> c.hasProfile
    ensures c.requirementsData.Some? <==> c.hasRequirements
  {
    var p := Present(store, ProfileKey);
    var q := Present(store, RequirementsKey);
    Completion(p, q, p && q, ParseIfPresent(store, ProfileKey, parse), ParseIfPresent(store, RequirementsKey, parse))
  }

  /** `secureLocalStorage.getProfile()`: the parsed profile, or null when it is absent. */
  function GetProfile<J>(store: Store, parse: string -> Object<J>): (r: Option<Object<J>>)
    ensures r.None? <==> !Present(store, ProfileKey)
    ensures r.Some? ==> r.value == parse(store[ProfileKey])
  {
    var c := CheckProfileCompletion(store, parse);
    if c.hasProfile then c.profileData else None
  }

  /** `secureLocalStorage.getRequirements()`: the parsed requirements, or null when absent. */
  function GetRequirements<J>(store: Store, parse: string -> Object<J>): (r: Option<Object<J>>)
    ensures r.None? <==> !Present(store, RequirementsKey)
    ensures r.Some? ==> r.value == parse(store[RequirementsKey])
  {
    var c := CheckProfileCompletion(store, parse);
    if c.hasRequirements then c.requirementsData else None
  }

  /**
   * `secureLocalStorage.getUserData()`: for a complete user, the two records spread into
   * one object, where a field of the requirements hides a profile field of the same name.
   */
  function GetUserData<J>(store: Store, parse: string -> Object<J>): (r: Option<Object<J>>)
    ensures r.Some? <==> CheckProfileCompletion(store, parse).isComplete
    ensures r.Some? ==>
              var profile := parse(store[ProfileKey]);
              var requirements := parse(store[RequirementsKey]);
              && r.value.Keys == profile.Keys + requirements.Keys
              && (forall k | k in requirements :: r.value[k] == requirements[k])
              && (forall k | k in profile && k !in requirements :: r.value[k] == profile[k])
  {
    var c := CheckProfileCompletion(store, parse);
    if c.isComplete then Some(c.profileData.value + c.requirementsData.value) else None
  }

  /** The browser location that `window.location.href` assigns. */
  class Location {
    var href: string

    constructor(href: string)
      ensures this.href == href
    {
      this.href := href;
    }
  }

  /**
   * `secureUniversityAccess(callback)`: an incomplete user is sent to `/profile` and gets
   * null; a complete one gets the callback's result and stays where they are.
   */
  method SecureUniversityAccess<J, T>(location: Location, store: Store, parse: string -> Object<J>, callback: () -> T)
    returns (r: Option<T>)
    modifies location
    ensures r.None? <==> !CheckProfileCompletion(store, parse).isComplete
    ensures r.None? ==> location.href == "/profile"
    ensures r.Some? ==> r.value == callback() && location.href == old(location.href)
  {
    var c := CheckProfileCompletion(store, parse);
    if !c.isComplete {
      location.href := "/profile";
      return None;
    }
    return Some(callback());
  }

  const ApiRefusal: string := "Profile completion required for API access"

  /** `secureApiCall(apiFunction, ...args)`: the error it throws, or the function's result. */
  function SecureApiCall<J, A, T>(store: Store, parse: string -> Object<J>, apiFunction: A -> T, args: A)
    : (r: Result<T, string>)
    ensures r.Err? <==> !CheckProfileCompletion(store, parse).isComplete
    ensures r.Err? ==> r.error == ApiRefusal
    ensures r.Ok? ==> r.value == apiFunction(args)
  {
    var c := CheckProfileCompletion(store, parse);
    if !c.isComplete then Err(ApiRefusal) else Ok(apiFunction(args))
  }

  /**
   * The middleware and the gate agree: a user passes the middleware exactly when the
   * full check would let a signed-in user through.
   */
  lemma {:induction false} CompleteIffFullCheck<J>(store: Store, parse: string -> Object<J>)
    ensures CheckProfileCompletion(store, parse).isComplete <==> GuardWith(WithFullCheck, true, store) == Allow
  {
  }

  /** Completion never reads what the stored strings say, only whether they are non-empty. */
  lemma {:induction false} CompletionIgnoresContents<J>(s: Store, t: Store, parse: string -> Object<J>)
    requires Present(s, ProfileKey) == Present(t, ProfileKey)
    requires Present(s, RequirementsKey) == Present(t, RequirementsKey)
    ensures CheckProfileCompletion(s, parse).isComplete == CheckProfileCompletion(t, parse).isComplete
  {
  }
}
