/** The state updaters of the application shell: every change to the profile store is a pure
    function from the previous root object to the next one. */
module ProfileStore {
  import opened Types
  import opened Strings

  /** The signed-in user as the shell sees it: `!currentUser` holds for null AND for "". */
  function ActiveUser(d: ProfilesData): Option<string> {
    if d.currentUser.Some? && d.currentUser.value != "" then d.currentUser else None
  }

  /** `profiles[name]?.prompts || []`: a missing profile reads as an empty list. */
  function PromptsOf(profiles: map<string, Profile>, name: string): seq<Prompt> {
    if name in profiles then profiles[name].prompts else []
  }

  /** The list the vault page shows: the signed-in user's stored prompts, or nothing when
      nobody is signed in or the user has no stored profile; on a well-formed root its ids
      are unique. */
  function CurrentPrompts(d: ProfilesData): (r: seq<Prompt>)
    ensures ActiveUser(d).None? ==> r == []
    ensures ActiveUser(d).Some? && ActiveUser(d).value in d.profiles ==>
      r == d.profiles[ActiveUser(d).value].prompts
    ensures ActiveUser(d).Some? && ActiveUser(d).value !in d.profiles ==> r == []
    ensures WellFormed(d) ==> UniqueIds(r)
  {
    match ActiveUser(d)
    case None => []
    case Some(u) => PromptsOf(d.profiles, u)
  }

  /** No two prompts of one list share an id. */
  predicate UniqueIds(ps: seq<Prompt>) {
    forall i, j :: 0 <= i < j < |ps| ==> ps[i].id != ps[j].id
  }

  /** No prompt of the list carries `id`. */
  predicate FreshId(ps: seq<Prompt>, id: int) {
    forall i :: 0 <= i < |ps| ==> ps[i].id != id
  }

  /** The root invariant: a non-null current user names a stored profile, and ids are unique
      within each profile. */
  predicate WellFormed(d: ProfilesData) {
    && (d.currentUser.Some? ==> d.currentUser.value in d.profiles)
    && forall n :: n in d.profiles ==> UniqueIds(d.profiles[n].prompts)
  }

  /** Every other profile keeps its entry. */
  predicate OthersUnchanged(before: map<string, Profile>, after: map<string, Profile>, name: string) {
    forall n :: n in before && n != name ==> n in after && after[n] == before[n]
  }

  /** The add updater: prepends `p` to the signed-in user's list (a missing list counts as
      empty); with nobody signed in the state is returned as it was. */
  function AddPrompt(d: ProfilesData, p: Prompt): (r: ProfilesData)
    ensures r.currentUser == d.currentUser
    ensures ActiveUser(d).None? ==> r == d
    ensures ActiveUser(d).Some? ==>
      var u := ActiveUser(d).value;
      && r.profiles.Keys == d.profiles.Keys + {u}
      && CurrentPrompts(r) == [p] + CurrentPrompts(d)
      && OthersUnchanged(d.profiles, r.profiles, u)
    ensures WellFormed(d) && FreshId(CurrentPrompts(d), p.id) ==> WellFormed(r)
  {
    match ActiveUser(d)
    case None => d
    case Some(u) =>
      var r := d.(profiles := d.profiles[u := Profile([p] + PromptsOf(d.profiles, u))]);
      assert WellFormed(d) && FreshId(CurrentPrompts(d), p.id) ==> UniqueIds(r.profiles[u].prompts) by {
        if WellFormed(d) && FreshId(CurrentPrompts(d), p.id) {
          ConsUnique(p, PromptsOf(d.profiles, u));
        }
      }
      r
  }

  /** `prompts.filter(p => p.id !== id)`: nothing carrying `id` survives, everything else does. */
  function RemoveId(ps: seq<Prompt>, id: int): (r: seq<Prompt>)
    ensures |r| <= |ps|
    ensures forall x :: x in r <==> x in ps && x.id != id
    ensures FreshId(ps, id) ==> r == ps
  {
    if ps == [] then []
    else
      var rest := RemoveId(ps[1..], id);
      assert ps == [ps[0]] + ps[1..];
      if ps[0].id == id then rest else [ps[0]] + rest
  }

  /** Filtering distributes over concatenation, so the kept prompts stay in their order. */
  lemma {:induction false} RemoveIdAppend(a: seq<Prompt>, b: seq<Prompt>, id: int)
    ensures RemoveId(a + b, id) == RemoveId(a, id) + RemoveId(b, id)
  {
    if a == [] {
      assert a + b == b;
    } else {
      assert (a + b)[1..] == a[1..] + b;
      RemoveIdAppend(a[1..], b, id);
    }
  }

  /** Filtering never brings in an id the list did not carry. */
  lemma {:induction false} RemoveIdKeepsFresh(ps: seq<Prompt>, id: int, x: int)
    requires FreshId(ps, x)
    ensures FreshId(RemoveId(ps, id), x)
  {
    if ps != [] {
      assert FreshId(ps[1..], x) by {
        forall i | 0 <= i < |ps[1..]| ensures ps[1..][i].id != x {
          assert ps[1..][i] == ps[i + 1];
        }
      }
      RemoveIdKeepsFresh(ps[1..], id, x);
    }
  }

  /** Putting a prompt with a new id in front of a list with unique ids keeps them unique. */
  lemma ConsUnique(p: Prompt, ps: seq<Prompt>)
    requires UniqueIds(ps) && FreshId(ps, p.id)
    ensures UniqueIds([p] + ps)
  {
    var r := [p] + ps;
    forall i, j | 0 <= i < j < |r| ensures r[i].id != r[j].id {
      assert r[j] == ps[j - 1];
      if i > 0 { assert r[i] == ps[i - 1]; }
    }
  }

  /** Filtering keeps ids unique. */
  lemma {:induction false} RemoveIdKeepsUnique(ps: seq<Prompt>, id: int)
    requires UniqueIds(ps)
    ensures UniqueIds(RemoveId(ps, id))
  {
    if ps != [] {
      var tail := ps[1..];
      assert UniqueIds(tail) && FreshId(tail, ps[0].id) by {
        assert forall i :: 0 <= i < |tail| ==> tail[i] == ps[i + 1];
      }
      RemoveIdKeepsUnique(tail, id);
      RemoveIdKeepsFresh(tail, id, ps[0].id);
      if ps[0].id != id {
        ConsUnique(ps[0], RemoveId(tail, id));
      }
    }
  }

  /** The delete updater. With nobody signed in the handler returns before updating (Some(d)).
      Otherwise it reads `profiles[currentUser].prompts` without a fallback, so a signed-in user
      with no stored profile makes the updater throw (None). */
  function DeletePrompt(d: ProfilesData, id: int): (r: Option<ProfilesData>)
    ensures ActiveUser(d).None? ==> r == Some(d)
    ensures ActiveUser(d).Some? ==> (r.None? <==> ActiveUser(d).value !in d.profiles)
    ensures r.Some? && ActiveUser(d).Some? ==>
      var u := ActiveUser(d).value;
      && r.value.currentUser == d.currentUser
      && r.value.profiles.Keys == d.profiles.Keys
      && CurrentPrompts(r.value) == RemoveId(CurrentPrompts(d), id)
      && OthersUnchanged(d.profiles, r.value.profiles, u)
    ensures WellFormed(d) ==> r.Some? && WellFormed(r.value)
  {
    match ActiveUser(d)
    case None => Some(d)
    case Some(u) =>
      if u !in d.profiles then None
      else
        assert WellFormed(d) ==> UniqueIds(RemoveId(d.profiles[u].prompts, id)) by {
          if WellFormed(d) { RemoveIdKeepsUnique(d.profiles[u].prompts, id); }
        }
        Some(d.(profiles := d.profiles[u := Profile(RemoveId(d.profiles[u].prompts, id))]))
  }

  /** The select updater: only `currentUser` changes. Callers pass a name from the list of
      existing profiles, which keeps the invariant. */
  function SelectProfile(d: ProfilesData, name: string): (r: ProfilesData)
    ensures r.profiles == d.profiles && r.currentUser == Some(name)
    ensures WellFormed(d) && name in d.profiles ==> WellFormed(r)
  {
    d.(currentUser := Some(name))
  }

  /** The create updater: signs `name` in with an empty list, replacing any entry with exactly
      that name and leaving every other profile alone. */
  function CreateProfile(d: ProfilesData, name: string): (r: ProfilesData)
    ensures r.currentUser == Some(name)
    ensures r.profiles.Keys == d.profiles.Keys + {name}
    ensures PromptsOf(r.profiles, name) == []
    ensures OthersUnchanged(d.profiles, r.profiles, name)
    ensures WellFormed(d) ==> WellFormed(r)
  {
    d.(currentUser := Some(name), profiles := d.profiles[name := Profile([])])
  }

  /** The switch updater: signs out, keeping every profile and its prompts. */
  function SwitchProfile(d: ProfilesData): (r: ProfilesData)
    ensures r.profiles == d.profiles && r.currentUser.None?
    ensures ActiveUser(r).None? && CurrentPrompts(r) == []
    ensures WellFormed(d) ==> WellFormed(r)
  {
    d.(currentUser := None)
  }

  /** Filtering out the id of a prompt put in front of a list that lacks it gives the list back. */
  lemma RemovePrepended(p: Prompt, ps: seq<Prompt>)
    requires FreshId(ps, p.id)
    ensures RemoveId([p] + ps, p.id) == ps
  {
    assert ([p] + ps)[1..] == ps;
  }

  /** Deleting the id of a prompt just added (the id being new to the list) gives back the list
      as it was; when the user already had a stored list the whole state comes back. */
  lemma AddThenDeleteRestores(d: ProfilesData, p: Prompt)
    requires FreshId(CurrentPrompts(d), p.id)
    ensures DeletePrompt(AddPrompt(d, p), p.id).Some?
    ensures CurrentPrompts(DeletePrompt(AddPrompt(d, p), p.id).value) == CurrentPrompts(d)
    ensures ActiveUser(d).None? || ActiveUser(d).value in d.profiles ==>
      DeletePrompt(AddPrompt(d, p), p.id) == Some(d)
  {
    if ActiveUser(d).Some? {
      var u := ActiveUser(d).value;
      var ps := PromptsOf(d.profiles, u);
      var restored := d.(profiles := d.profiles[u := Profile(ps)]);
      AddThenDeleteFor(d, p, u, ps);
      assert CurrentPrompts(restored) == ps;
      if u in d.profiles {
        assert d.profiles[u] == Profile(ps);
        assert restored == d;
      }
    }
  }

  /** The signed-in case: add then delete leaves the user's entry holding the list as it was. */
  lemma AddThenDeleteFor(d: ProfilesData, p: Prompt, u: string, ps: seq<Prompt>)
    requires ActiveUser(d) == Some(u) && ps == PromptsOf(d.profiles, u) && FreshId(ps, p.id)
    ensures DeletePrompt(AddPrompt(d, p), p.id) == Some(d.(profiles := d.profiles[u := Profile(ps)]))
  {
    var added := d.(profiles := d.profiles[u := Profile([p] + ps)]);
    assert AddPrompt(d, p) == added;
    assert ActiveUser(added) == Some(u) && u in added.profiles;
    assert added.profiles[u].prompts == [p] + ps;
    RemovePrepended(p, ps);
    assert added.profiles[u := Profile(ps)] == d.profiles[u := Profile(ps)];
  }

  // ---------------------------------------------------------------------------------------
  // Saving a prompt from the creator form

  /** The creator form's fields. */
  datatype Draft = Draft(
    mainCategory: string,
    customCategory: string,
    subCategory: string,
    instructions: string,
    referenceImage: Option<string>)

  const OtherCategory := "Other"

  /** The category a save uses: the chosen one, or the custom text without its surrounding
      white space when "Other" is chosen (empty exactly when that text is blank). */
  function FinalCategory(draft: Draft): (c: string)
    ensures draft.mainCategory != OtherCategory ==> c == draft.mainCategory
    ensures draft.mainCategory == OtherCategory ==>
      && c == Trim(draft.customCategory)
      && NoEdgeSpace(c) && (c == [] <==> IsBlank(draft.customCategory))
  {
    if draft.mainCategory == OtherCategory then Trim(draft.customCategory) else draft.mainCategory
  }

  /** The save guard: somebody signed in, no save in flight, a category and some instructions
      that are not only white space. */
  predicate CanSave(d: ProfilesData, isSaving: bool, draft: Draft)
    ensures CanSave(d, isSaving, draft) <==>
      ActiveUser(d).Some? && !isSaving && FinalCategory(draft) != [] && !IsBlank(draft.instructions)
  {
    ActiveUser(d).Some? && !isSaving && FinalCategory(draft) != "" && Trim(draft.instructions) != ""
  }

  /** The record a save builds, stamped with the clock reading `id`. */
  function NewPrompt(draft: Draft, id: int): (p: Prompt)
    ensures p.id == id
    ensures p.category == FinalCategory(draft) && p.mainCategory == Some(p.category)
    ensures p.fullPrompt == Trim(draft.instructions) && p.subCategory == Some(Trim(draft.subCategory))
    ensures NoEdgeSpace(p.fullPrompt) && (p.fullPrompt == [] <==> IsBlank(draft.instructions))
    ensures NoEdgeSpace(p.subCategory.value)
    ensures p.referenceImage == draft.referenceImage && p.legacy == NoLegacyFields
  {
    Prompt(id, Trim(draft.instructions), FinalCategory(draft), Some(FinalCategory(draft)),
           Some(Trim(draft.subCategory)), draft.referenceImage, NoLegacyFields)
  }

  /** The save handler as one atomic transition: None when the guard turns the click away,
      otherwise the state after the add updater has prepended the new prompt. */
  function SavePrompt(d: ProfilesData, isSaving: bool, draft: Draft, id: int): (r: Option<ProfilesData>)
    ensures r.None? <==> !CanSave(d, isSaving, draft)
    ensures r.Some? ==>
      && r.value.currentUser == d.currentUser
      && r.value.profiles.Keys == d.profiles.Keys + {ActiveUser(d).value}
      && CurrentPrompts(r.value) == [NewPrompt(draft, id)] + CurrentPrompts(d)
      && CurrentPrompts(r.value)[0].fullPrompt != []
      && CurrentPrompts(r.value)[0].category != []
      && OthersUnchanged(d.profiles, r.value.profiles, ActiveUser(d).value)
    ensures r.Some? && WellFormed(d) && FreshId(CurrentPrompts(d), id) ==> WellFormed(r.value)
  {
    if !CanSave(d, isSaving, draft) then None
    else Some(AddPrompt(d, NewPrompt(draft, id)))
  }

  /** The text a save stores is the instructions with the white space at both ends cut off:
      the instructions are blank, then the text, then blank, and the text has no white space at
      either end. */
  lemma NewPromptKeepsInstructions(draft: Draft, id: int) returns (pre: string, post: string)
    ensures var text := NewPrompt(draft, id).fullPrompt;
      && draft.instructions == pre + text + post
      && IsBlank(pre) && IsBlank(post) && NoEdgeSpace(text)
  {
    var s := draft.instructions;
    var i := TrimIsInfix(s);
    var n := |Trim(s)|;
    pre, post := s[..i], s[i + n..];
    SplitAround(s, i, n);
  }

  /** A string is what comes before a slice, the slice, and what comes after it. */
  lemma SplitAround(s: string, i: nat, n: nat)
    requires i + n <= |s|
    ensures s == s[..i] + s[i..i + n] + s[i + n..]
  {
  }

  /** Saving and then deleting the new prompt's (fresh) id leaves the user's list as it was. */
  lemma SaveThenDeleteRestores(d: ProfilesData, isSaving: bool, draft: Draft, id: int)
    requires CanSave(d, isSaving, draft) && FreshId(CurrentPrompts(d), id)
    ensures SavePrompt(d, isSaving, draft, id).Some?
    ensures DeletePrompt(SavePrompt(d, isSaving, draft, id).value, id).Some?
    ensures CurrentPrompts(DeletePrompt(SavePrompt(d, isSaving, draft, id).value, id).value) == CurrentPrompts(d)
  {
    AddThenDeleteRestores(d, NewPrompt(draft, id));
  }

  /** Signing out and back in loses nothing: create a profile, save one prompt, switch, select
      the profile again, and its list holds exactly that prompt. */
  lemma SwitchKeepsPrompts(d: ProfilesData, name: string, draft: Draft, id: int)
    requires name != ""
    requires CanSave(CreateProfile(d, name), false, draft)
    ensures
      var saved := SavePrompt(CreateProfile(d, name), false, draft, id);
      && saved.Some?
      && CurrentPrompts(SelectProfile(SwitchProfile(saved.value), name)) == [NewPrompt(draft, id)]
  {
    var created := CreateProfile(d, name);
    var saved := SavePrompt(created, false, draft, id).value;
    assert CurrentPrompts(saved) == [NewPrompt(draft, id)] by {
      assert CurrentPrompts(created) == [];
      assert [NewPrompt(draft, id)] + [] == [NewPrompt(draft, id)];
    }
    assert saved.currentUser == Some(name);
  }
}