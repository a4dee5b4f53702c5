/**
 * The browser's `localStorage` as the application uses it: a map from keys to
 * stored strings, and the keys the pages write and the guards probe.
 */
module Storage {

  /** `localStorage`: every stored value is a string. */
  type Store = map<string, string>

  /** The key the profile page writes (`src/pages/ProfileCreation.js`) and the guards probe. */
  const ProfileKey: string := "userProfile"

  /** The key the requirements page writes (`src/pages/RequirementForm.js`) and the guards probe. */
  const RequirementsKey: string := "userRequirements"

  /** `!!localStorage.getItem(key)`: the key is stored with a non-empty string. */
  predicate Present(store: Store, key: string) {
    key in store && store[key] != ""
  }

  /** `localStorage.setItem(key, text)`. */
  function SetItem(store: Store, key: string, text: string): (r: Store)
    ensures key in r && r[key] == text
    ensures r.Keys == store.Keys + {key}
    ensures forall k :: k in store && k != key ==> k in r && r[k] == store[k]
    ensures text != "" ==> Present(r, key)
    ensures forall k :: k != key ==> (Present(r, k) <==> Present(store, k))
  {
    store[key := text]
  }
}
