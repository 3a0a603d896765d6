/**
 * The "Join Breaking Math" application dialog of the hero section: six form fields, an
 * interests checklist toggled one interest at a time, and a submit that only resets the form
 * and closes the dialog (nothing is sent anywhere).
 */
module HeroSection {

  datatype FormData = FormData(
    name: string, grade: string, email: string,
    interests: seq<string>, experience: string, motivation: string)

  /** The form's starting value, and the value submit resets it to. */
  const EmptyForm := FormData("", "", "", [], "", "")

  /** The interests the checklist offers. */
  const InterestOptions: seq<string> := ["Algebra", "Geometry", "Calculus", "Statistics", "Number Theory", "Discrete Math"]

  predicate Distinct(xs: seq<string>) {
    forall i, j :: 0 <= i < j < |xs| ==> xs[i] != xs[j]
  }

  /** `xs.filter(i => i !== x)`. */
  function Without(xs: seq<string>, x: string): (r: seq<string>)
    ensures x !in r
    ensures multiset(r) == multiset(xs)[x := 0]
    ensures Distinct(xs) ==> Distinct(r)
  {
    if xs == [] then []
    else
      var rest := Without(xs[1..], x);
      assert xs == [xs[0]] + xs[1..];
      if xs[0] == x then rest
      else
        assert Distinct(xs) ==> xs[0] !in rest by {
          if Distinct(xs) {
            assert xs[0] !in xs[1..];
            assert multiset(rest)[xs[0]] <= multiset(xs[1..])[xs[0]];
          }
        }
        [xs[0]] + rest
  }

  /** `handleInterestChange`: a present interest is removed (every copy), an absent one appended. */
  function ToggleInterest(interests: seq<string>, x: string): (r: seq<string>)
    ensures x in interests ==> x !in r && multiset(r) == multiset(interests)[x := 0]
    ensures x !in interests ==> r == interests + [x]
    ensures x in r <==> x !in interests
  {
    if x in interests then Without(interests, x) else interests + [x]
  }

  /** The checkbox change handler on the whole form: only `interests` changes. */
  function Toggle(f: FormData, x: string): (r: FormData)
    ensures r.interests == ToggleInterest(f.interests, x)
    ensures r.name == f.name && r.grade == f.grade && r.email == f.email
    ensures r.experience == f.experience && r.motivation == f.motivation
  {
    f.(interests := ToggleInterest(f.interests, x))
  }

  /** Toggling never introduces a duplicate. */
  lemma ToggleKeepsDistinct(interests: seq<string>, x: string)
    requires Distinct(interests)
    ensures Distinct(ToggleInterest(interests, x))
  {
  }

  /** Toggled from the checklist, the list only ever holds offered interests. */
  lemma ToggleStaysWithinOptions(interests: seq<string>, x: string)
    requires x in InterestOptions
    requires forall i :: 0 <= i < |interests| ==> interests[i] in InterestOptions
    ensures forall y :: y in ToggleInterest(interests, x) ==> y in InterestOptions
  {
    forall y | y in ToggleInterest(interests, x) ensures y in InterestOptions {
      assert y in multiset(ToggleInterest(interests, x));
    }
  }

  /** Toggling an absent interest twice gives back the list. */
  lemma ToggleTwiceAbsent(interests: seq<string>, x: string)
    requires x !in interests
    ensures ToggleInterest(ToggleInterest(interests, x), x) == interests
  {
    WithoutAbsent(interests, x);
    WithoutAppended(interests, x);
  }

  /** Toggling a present interest twice drops its extra copies and moves it to the end. */
  lemma ToggleTwicePresent(interests: seq<string>, x: string)
    requires x in interests
    ensures ToggleInterest(ToggleInterest(interests, x), x) == Without(interests, x) + [x]
    ensures multiset(ToggleInterest(ToggleInterest(interests, x), x)) == multiset(interests)[x := 1]
  {
  }

  lemma {:induction false} WithoutAbsent(xs: seq<string>, x: string)
    requires x !in xs
    ensures Without(xs, x) == xs
  {
    if xs != [] {
      WithoutAbsent(xs[1..], x);
    }
  }

  lemma {:induction false} WithoutAppended(xs: seq<string>, x: string)
    ensures Without(xs + [x], x) == Without(xs, x)
  {
    if xs == [] {
      assert [x][1..] == [];
    } else {
      assert (xs + [x])[1..] == xs[1..] + [x];
      WithoutAppended(xs[1..], x);
    }
  }

  /** The text fields the form edits with `onChange` / `onValueChange`. */
  datatype Field = Name | Grade | Email | Experience | Motivation

  function SetField(f: FormData, field: Field, value: string): (r: FormData)
    ensures r.interests == f.interests
    ensures r.name == (if field == Name then value else f.name)
    ensures r.grade == (if field == Grade then value else f.grade)
    ensures r.email == (if field == Email then value else f.email)
    ensures r.experience == (if field == Experience then value else f.experience)
    ensures r.motivation == (if field == Motivation then value else f.motivation)
  {
    match field
    case Name => f.(name := value)
    case Grade => f.(grade := value)
    case Email => f.(email := value)
    case Experience => f.(experience := value)
    case Motivation => f.(motivation := value)
  }

  /** The component's state. */
  class JoinDialog {
    var showJoinDialog: bool
    var formData: FormData

    constructor ()
      ensures !showJoinDialog && formData == EmptyForm
    {
      showJoinDialog, formData := false, EmptyForm;
    }

    /** The dialog's `onOpenChange`, and the "Join" button with `open` true. */
    method SetOpen(open: bool)
      modifies this
      ensures showJoinDialog == open && formData == old(formData)
    {
      showJoinDialog := open;
    }

    method Edit(field: Field, value: string)
      modifies this
      ensures formData == SetField(old(formData), field, value) && showJoinDialog == old(showJoinDialog)
    {
      formData := SetField(formData, field, value);
    }

    method HandleInterestChange(interest: string)
      modifies this
      ensures formData == Toggle(old(formData), interest) && showJoinDialog == old(showJoinDialog)
    {
      formData := Toggle(formData, interest);
    }

    /** `handleSubmit`: every field back to empty and the dialog closed, whatever was entered. */
    method HandleSubmit()
      modifies this
      ensures formData == EmptyForm && !showJoinDialog
    {
      formData := EmptyForm;
      showJoinDialog := false;
    }
  }
}
