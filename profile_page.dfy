/**
 * The profile editor's local state: text fields, the two skill lists with their add and
 * remove handlers, and the visibility select. Every handler builds a new state.
 */
module ProfilePage {
  import opened Js
  import opened Seqs

  /** The fields of `profileData` that the editor changes. */
  datatype Profile = Profile(
    name: string,
    location: string,
    availability: string,
    isPublic: bool,
    skillsOffered: seq<string>,
    skillsWanted: seq<string>,
    profilePhoto: string)

  /** The profile being edited and the contents of the two "Add a skill..." boxes. */
  datatype Editor = Editor(profile: Profile, newSkillOffered: string, newSkillWanted: string)

  /** The inputs that `handleInputChange` serves, by their `name` attribute. */
  datatype TextField = NameField | LocationField | AvailabilityField

  datatype SkillKind = Offered | Wanted

  function FieldValue(p: Profile, f: TextField): string {
    match f
    case NameField => p.name
    case LocationField => p.location
    case AvailabilityField => p.availability
  }

  /** `handleInputChange`: the named field takes the typed value; nothing else changes. */
  function InputChange(p: Profile, f: TextField, value: string): (r: Profile)
    ensures FieldValue(r, f) == value
    ensures forall g :: g != f ==> FieldValue(r, g) == FieldValue(p, g)
    ensures r == p.(name := r.name, location := r.location, availability := r.availability)
  {
    match f
    case NameField => p.(name := value)
    case LocationField => p.(location := value)
    case AvailabilityField => p.(availability := value)
  }

  function Skills(p: Profile, kind: SkillKind): seq<string> {
    if kind == Offered then p.skillsOffered else p.skillsWanted
  }

  function WithSkills(p: Profile, kind: SkillKind, skills: seq<string>): (r: Profile)
    ensures Skills(r, kind) == skills
    ensures forall k :: k != kind ==> Skills(r, k) == Skills(p, k)
  {
    if kind == Offered then p.(skillsOffered := skills) else p.(skillsWanted := skills)
  }

  function Pending(e: Editor, kind: SkillKind): string {
    if kind == Offered then e.newSkillOffered else e.newSkillWanted
  }

  /** The add handler appends the trimmed input: it is not empty and not in the list yet. */
  predicate Adds(e: Editor, kind: SkillKind) {
    var skill := Trim(Pending(e, kind));
    skill != "" && skill !in Skills(e.profile, kind)
  }

  /** `handleSkillAdd`: append the trimmed input and clear its box, or change nothing. */
  function SkillAdd(e: Editor, kind: SkillKind): (r: Editor)
    ensures Adds(e, kind) ==> Skills(r.profile, kind) == Skills(e.profile, kind) + [Trim(Pending(e, kind))]
    ensures !Adds(e, kind) ==> r == e
    ensures Pending(r, kind) == "" || r == e
    ensures forall k :: k != kind ==> Skills(r.profile, k) == Skills(e.profile, k) && Pending(r, k) == Pending(e, k)
    ensures r.profile == e.profile.(skillsOffered := r.profile.skillsOffered, skillsWanted := r.profile.skillsWanted)
  {
    if Adds(e, kind) then
      var updated := Skills(e.profile, kind) + [Trim(Pending(e, kind))];
      if kind == Offered then Editor(WithSkills(e.profile, kind, updated), "", e.newSkillWanted)
      else Editor(WithSkills(e.profile, kind, updated), e.newSkillOffered, "")
    else e
  }

  /** An add never introduces a repeated skill. */
  lemma SkillAddKeepsNoDuplicates(e: Editor, kind: SkillKind)
    requires NoDuplicates(Skills(e.profile, kind))
    ensures NoDuplicates(Skills(SkillAdd(e, kind).profile, kind))
  {
  }

  /** The input box is cleared exactly when an add happens (a box that is already empty adds nothing). */
  lemma BoxClearedIffAdded(e: Editor, kind: SkillKind)
    requires Pending(e, kind) != ""
    ensures Pending(SkillAdd(e, kind), kind) == "" <==> Adds(e, kind)
  {
  }

  /** Every listed skill is trimmed and non-empty, and adding keeps it so. */
  predicate AllTrimmed(skills: seq<string>) {
    forall i :: 0 <= i < |skills| ==> skills[i] != "" && Trim(skills[i]) == skills[i]
  }

  lemma SkillAddKeepsTrimmed(e: Editor, kind: SkillKind)
    requires AllTrimmed(Skills(e.profile, kind))
    ensures AllTrimmed(Skills(SkillAdd(e, kind).profile, kind))
  {
    if Adds(e, kind) {
      TrimIdempotent(Pending(e, kind));
      AppendTrimmed(Skills(e.profile, kind), Trim(Pending(e, kind)));
    }
  }

  lemma AppendTrimmed(skills: seq<string>, skill: string)
    requires AllTrimmed(skills) && skill != "" && Trim(skill) == skill
    ensures AllTrimmed(skills + [skill])
  {
    var after := skills + [skill];
    forall i | 0 <= i < |after|
      ensures after[i] != "" && Trim(after[i]) == after[i]
    {
      if i < |skills| {
        assert after[i] == skills[i];
      }
    }
  }

  /** `handleSkillRemove`: keep every other skill, in order, and leave the other list alone. */
  function SkillRemove(p: Profile, skill: string, kind: SkillKind): (r: Profile)
    ensures skill !in Skills(r, kind)
    ensures forall x :: x in Skills(r, kind) <==> x in Skills(p, kind) && x != skill
    ensures Skills(r, kind) == Filter(Skills(p, kind), (s: string) => s != skill)
    ensures forall k :: k != kind ==> Skills(r, k) == Skills(p, k)
    ensures r == p.(skillsOffered := r.skillsOffered, skillsWanted := r.skillsWanted)
  {
    WithSkills(p, kind, Filter(Skills(p, kind), (s: string) => s != skill))
  }

  /** Removing the skill just added gives back the profile from before the add. */
  lemma RemoveUndoesAdd(e: Editor, kind: SkillKind)
    requires Adds(e, kind)
    ensures SkillRemove(SkillAdd(e, kind).profile, Trim(Pending(e, kind)), kind) == e.profile
  {
    var skill := Trim(Pending(e, kind));
    var keep := (s: string) => s != skill;
    var before := Skills(e.profile, kind);
    FilterAppend(before, [skill], keep);
    assert Filter([skill], keep) == [];
    FilterAll(before, keep);
  }

  /** Removing a skill that is not listed changes nothing. */
  lemma RemoveAbsentIsNoOp(p: Profile, skill: string, kind: SkillKind)
    requires skill !in Skills(p, kind)
    ensures SkillRemove(p, skill, kind) == p
  {
    FilterAll(Skills(p, kind), (s: string) => s != skill);
  }

  // ------------------------------------------------------------- visibility

  /** The value the visibility select shows for the stored flag. */
  function SelectValue(isPublic: bool): string {
    if isPublic then "true" else "false"
  }

  /** The select's `onChange`: `e.target.value === 'true'`. */
  function IsPublicFromSelect(value: string): (b: bool)
    ensures b <==> value == "true"
  {
    value == "true"
  }

  /** Reading back the shown option gives the flag it shows. */
  lemma SelectRoundTrip(isPublic: bool)
    ensures IsPublicFromSelect(SelectValue(isPublic)) == isPublic
  {
  }
}
