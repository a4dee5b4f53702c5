/**
 * The requirements page (`src/pages/RequirementForm.js`): six text fields and a list of
 * chosen priorities, where clicking a priority's checkbox toggles it in the list.
 */
module RequirementForm {
  import opened JsText
  import opened Storage

  /** `prev.priorities.filter(p => p !== priority)`: every occurrence of `p` deleted. */
  function Without(s: seq<string>, p: string): (r: seq<string>)
    ensures p !in r
    ensures forall q | q != p :: q in r <==> q in s
    ensures forall q | q != p :: multiset(r)[q] == multiset(s)[q]
    ensures |r| == |s| - multiset(s)[p]
    ensures p !in s ==> r == s
  {
    if s == [] then []
    else
      assert s == [s[0]] + s[1..];
      assert multiset(s) == multiset([s[0]]) + multiset(s[1..]);
      (if s[0] == p then [] else [s[0]]) + Without(s[1..], p)
  }

  /** `handlePriorityChange(priority)` on the list: a present priority is removed, an absent one appended. */
  function Toggle(s: seq<string>, p: string): seq<string> {
    if p in s then Without(s, p) else s + [p]
  }

  /** No priority appears twice. */
  predicate Distinct(s: seq<string>) {
    forall i, j | 0 <= i < j < |s| :: s[i] != s[j]
  }

  /** Deleting distributes over concatenation. */
  lemma {:induction false} WithoutAppend(s: seq<string>, t: seq<string>, p: string)
    ensures Without(s + t, p) == Without(s, p) + Without(t, p)
  {
    if s == [] {
      assert s + t == t;
    } else {
      assert (s + t)[0] == s[0] && (s + t)[1..] == s[1..] + t;
      WithoutAppend(s[1..], t, p);
    }
  }

  /** A duplicate-free list stays duplicate-free when entries are deleted from it. */
  lemma {:induction false} WithoutDistinct(s: seq<string>, p: string)
    requires Distinct(s)
    ensures Distinct(Without(s, p))
  {
    if s != [] {
      assert Distinct(s[1..]) by {
        forall i, j | 0 <= i < j < |s[1..]| ensures s[1..][i] != s[1..][j] {
          assert s[1..][i] == s[i + 1] && s[1..][j] == s[j + 1];
        }
      }
      WithoutDistinct(s[1..], p);
      assert s[0] !in s[1..] by {
        forall k | 0 <= k < |s[1..]| ensures s[1..][k] != s[0] {
          assert s[1..][k] == s[k + 1];
        }
      }
    }
  }

  /** Toggling flips the membership of the toggled priority and of no other. */
  lemma {:induction false} ToggleFlips(s: seq<string>, p: string)
    ensures p in Toggle(s, p) <==> p !in s
    ensures forall q | q != p :: q in Toggle(s, p) <==> q in s
  {
  }

  /** The other priorities keep their relative order. */
  lemma {:induction false} ToggleKeepsOrder(s: seq<string>, p: string)
    ensures Without(Toggle(s, p), p) == Without(s, p)
  {
    if p !in s {
      WithoutAppend(s, [p], p);
      assert Without([p], p) == [] by {
        assert [p][1..] == [];
      }
    }
  }

  /** A duplicate-free list stays duplicate-free. */
  lemma {:induction false} ToggleDistinct(s: seq<string>, p: string)
    requires Distinct(s)
    ensures Distinct(Toggle(s, p))
  {
    if p in s {
      WithoutDistinct(s, p);
    }
  }

  /**
   * Toggling twice: an absent priority leaves the list exactly as it was; a present one
   * comes back at the end, after the others in their old order.
   */
  lemma {:induction false} ToggleTwice(s: seq<string>, p: string)
    ensures p !in s ==> Toggle(Toggle(s, p), p) == s
    ensures p in s ==> Toggle(Toggle(s, p), p) == Without(s, p) + [p]
  {
    if p !in s {
      assert p in s + [p];
      ToggleKeepsOrder(s, p);
    }
  }

  /** The text fields of the form, all starting empty. */
  const TextFields: set<string> :=
    {"targetCountry", "targetCourse", "studyLevel", "workExperience", "preferredUniversities", "startDate"}

  const PrioritiesField: string := "priorities"

  /** The form's state. */
  class Form {
    var data: map<string, FormValue>

    /** The priority list is where the toggle expects it. */
    predicate Valid()
      reads this
    {
      PrioritiesField in data && data[PrioritiesField].List?
    }

    /** The initial state: empty text fields and no priorities. */
    constructor()
      ensures data.Keys == TextFields + {PrioritiesField}
      ensures forall f | f in TextFields :: data[f] == Text("")
      ensures data[PrioritiesField] == List([])
      ensures Valid()
    {
      data := map f | f in TextFields + {PrioritiesField} :: if f == PrioritiesField then List([]) else Text("");
    }

    /** The current priorities. */
    function Priorities(): seq<string>
      reads this
      requires Valid()
    {
      data[PrioritiesField].items
    }

    /** `handleInputChange`: the named field takes the input's text; nothing else changes. */
    method HandleInputChange(name: string, value: string)
      modifies this
      ensures data == old(data)[name := Text(value)]
      ensures old(Valid()) && name != PrioritiesField ==> Valid()
    {
      data := data[name := Text(value)];
    }

    /** `handlePriorityChange(priority)`: the priority list is toggled; nothing else changes. */
    method HandlePriorityChange(priority: string)
      requires Valid()
      modifies this
      ensures Valid()
      ensures data == old(data)[PrioritiesField := List(Toggle(old(Priorities()), priority))]
    {
      data := data[PrioritiesField := List(Toggle(Priorities(), priority))];
    }

    /** `handleSubmit`: the serialised form is stored under the key the gate probes, then the dashboard. */
    method HandleSubmit(store: Store, serialized: string) returns (store': Store, target: string)
      ensures store' == SetItem(store, RequirementsKey, serialized)
      ensures serialized != "" ==> Present(store', RequirementsKey)
      ensures target == "/dashboard"
    {
      store' := SetItem(store, RequirementsKey, serialized);
      target := "/dashboard";
    }
  }
}
