/** The profile chooser: validation of a new profile name, the inline error it shows, and the
    guarantee that an accepted name never replaces a stored profile. */
module ProfileManager {
  import opened Types
  import opened Strings
  import ProfileStore

  /** The outcome of `handleCreate`: one of two inline errors, or the name handed to
      `onCreateProfile`. */
  datatype NameCheck = EmptyName | DuplicateName | Accepted(name: string)

  const EmptyNameMessage := "Profile name cannot be empty."
  const DuplicateNameMessage := "A profile with this name already exists."

  /** `existingProfiles.map(p => p.toLowerCase())`: one entry per name, and a string is in it
      exactly when it is the fold of some existing name (what `includes` asks). */
  function FoldAll(existing: seq<string>): (r: seq<string>)
    ensures |r| == |existing|
    ensures forall x :: x in r <==> exists i :: 0 <= i < |existing| && Lower(existing[i]) == x
  {
    var r := seq(|existing|, i requires 0 <= i < |existing| => Lower(existing[i]));
    assert forall i :: 0 <= i < |existing| ==> r[i] == Lower(existing[i]);
    r
  }

  /** Some existing name equals `name` up to case. */
  predicate TakenIgnoringCase(name: string, existing: seq<string>) {
    exists i :: 0 <= i < |existing| && Lower(existing[i]) == Lower(name)
  }

  /** The decision of `handleCreate`. The emptiness test comes first; an accepted name is the
      trimmed input, non-empty, without white space at either end, and different up to case
      from every existing name. */
  function ValidateName(raw: string, existing: seq<string>): (r: NameCheck)
    ensures r == EmptyName <==> IsBlank(raw)
    ensures r == DuplicateName <==> !IsBlank(raw) && TakenIgnoringCase(Trim(raw), existing)
    ensures r.Accepted? ==>
      && r.name == Trim(raw)
      && r.name != []
      && NoEdgeSpace(r.name)
      && forall i :: 0 <= i < |existing| ==> Lower(existing[i]) != Lower(r.name)
  {
    var trimmed := Trim(raw);
    if trimmed == "" then EmptyName
    else if Lower(trimmed) in FoldAll(existing) then DuplicateName
    else Accepted(trimmed)
  }

  /** The error text shown for a rejected name ("" when there is none). */
  function Message(c: NameCheck): (m: string)
    ensures m == "" <==> c.Accepted?
  {
    match c
    case EmptyName => EmptyNameMessage
    case DuplicateName => DuplicateNameMessage
    case Accepted(_) => ""
  }

  /** The chooser's own state: the text box and the inline error. */
  datatype Form = Form(input: string, error: string)

  /** What one user action produces: the next form, and the name passed to `onCreateProfile`
      if it was called. */
  datatype Outcome = Outcome(form: Form, created: Option<string>)

  /** The Create button. A rejection only sets the error; an acceptance calls
      `onCreateProfile` once with the trimmed name and leaves the form as it is. */
  function HandleCreate(form: Form, existing: seq<string>): (o: Outcome)
    ensures o.created.Some? <==> !IsBlank(form.input) && !TakenIgnoringCase(Trim(form.input), existing)
    ensures o.created.Some? ==> o.created.value == Trim(form.input) && o.form == form
    ensures o.created.None? ==>
      && o.form.input == form.input
      && o.form.error == (if IsBlank(form.input) then EmptyNameMessage else DuplicateNameMessage)
  {
    match ValidateName(form.input, existing)
    case Accepted(name) => Outcome(form, Some(name))
    case rejected => Outcome(form.(error := Message(rejected)), None)
  }

  /** Typing in the text box replaces the input and clears any pending error. */
  function HandleInputChange(form: Form, text: string): (f: Form)
    ensures f.input == text && f.error == ""
  {
    Form(text, "")
  }

  /** A key press in the text box: Enter does exactly what the Create button does, any other
      key does nothing. */
  function HandleKeyPress(form: Form, key: string, existing: seq<string>): (o: Outcome)
    ensures key == "Enter" ==> o == HandleCreate(form, existing)
    ensures key != "Enter" ==> o == Outcome(form, None)
  {
    if key == "Enter" then HandleCreate(form, existing) else Outcome(form, None)
  }

  /** Worked cases: blank inputs are rejected as empty. */
  lemma BlankNamesRejected()
    ensures ValidateName("", ["foo"]) == EmptyName
    ensures ValidateName("   ", ["foo"]) == EmptyName
  {
    assert IsBlank("   ") by { assert IsSpace(' '); }
  }

  lemma LowerExamples()
    ensures Lower("Foo") == "foo" && Lower("foo") == "foo" && Lower("Bar") == "bar"
  {
    assert LowerChar('F') == 'f' && LowerChar('f') == 'f' && LowerChar('o') == 'o';
    assert LowerChar('B') == 'b' && LowerChar('a') == 'a' && LowerChar('r') == 'r';
  }

  /** Trimming the padded variant of a stored name. */
  lemma TrimPaddedFoo()
    ensures Trim(" Foo ") == "Foo"
  {
    assert IsBlank(" ") && NoEdgeSpace("Foo") by {
      assert IsSpace(' ') && !IsSpace('F') && !IsSpace('o');
    }
    assert " Foo " == " " + "Foo" + " ";
    TrimPadded(" ", "Foo", " ");
  }

  /** Worked case: a name differing from a stored one only in case and padding is a duplicate. */
  lemma PaddedCaseVariantRejected()
    ensures ValidateName(" Foo ", ["foo"]) == DuplicateName
  {
    TrimPaddedFoo();
    assert Lower(Trim(" Foo ")) in FoldAll(["foo"]) by {
      LowerExamples();
      assert FoldAll(["foo"])[0] == "foo";
    }
  }

  /** Worked case: a new name is accepted unchanged. */
  lemma NewNameAccepted()
    ensures ValidateName("Bar", ["foo"]) == Accepted("Bar")
  {
    assert Trim("Bar") == "Bar" by {
      assert !IsSpace('B') && !IsSpace('r');
      TrimUnpadded("Bar");
    }
    LowerExamples();
    assert FoldAll(["foo"]) == ["foo"];
    assert "bar" != "foo";
  }

  /** The chooser lists `Object.keys(profiles)`: the names of `existing` are exactly the
      stored profiles. Creating a profile under an accepted name therefore adds exactly one
      new profile, signs it in, and never replaces a stored one. */
  lemma CreateNeverOverwrites(d: ProfilesData, existing: seq<string>, raw: string)
    requires forall n :: n in d.profiles <==> n in existing
    requires ValidateName(raw, existing).Accepted?
    ensures
      var name := ValidateName(raw, existing).name;
      var r := ProfileStore.CreateProfile(d, name);
      && name !in d.profiles
      && r.profiles.Keys == d.profiles.Keys + {name}
      && |r.profiles| == |d.profiles| + 1
      && forall n :: n in d.profiles ==> r.profiles[n] == d.profiles[n]
  {
    var name := ValidateName(raw, existing).name;
    assert name !in d.profiles;
    var r := ProfileStore.CreateProfile(d, name);
    assert r.profiles.Keys == d.profiles.Keys + {name};
    assert |r.profiles.Keys| == |d.profiles.Keys| + 1;
  }
}
