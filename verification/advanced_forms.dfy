/** `AdvancedFormsDemoComponent`: a profile form with an asynchronous
    username-availability check, a phone rule that depends on the preferred
    contact, dynamic skill and experience lists, and a newest-first log of
    value changes. The delay of the availability check is not modelled,
    only its answer. `null` control values (after a reset) are `""`,
    `false` or 0. */
module AdvancedForms {
  import opened Common
  import Text
  import BoundedLog
  import ReactiveForms

  // ---------------------------------------------------------------------
  // Username availability

  const TakenUsernames: seq<String> := ["admin", "user", "test", "demo", "angular"]

  datatype FieldError = UsernameTaken | Required | Pattern

  /** `usernameAvailabilityValidator()`: an empty value is not checked; any
      other value is taken when its lower-case form is in the list. */
  function UsernameAvailability(value: String): (r: Option<FieldError>)
    ensures value == "" ==> r.None?
    ensures value != "" ==> (r.Some? <==> Text.Lower(value) in TakenUsernames)
    ensures r.Some? ==> r.value == UsernameTaken
  {
    if value == "" then None
    else if Text.Lower(value) in TakenUsernames then Some(UsernameTaken)
    else None
  }

  /** The check ignores case: a name is taken exactly when its upper-case
      spelling is. */
  lemma {:induction false} AvailabilityIgnoresCase(value: String)
    ensures UsernameAvailability(value) == UsernameAvailability(Text.Upper(value))
  {
    Text.LowerOfUpper(value);
    assert |Text.Upper(value)| == |value|;
  }

  // ---------------------------------------------------------------------
  // Conditional phone rule

  /** The phone control's errors under `updateContactValidation(preference)`:
      only the preference "phone" puts `required` and the phone pattern on
      the control; any other preference clears them. */
  function PhoneErrors(preference: String, phone: String): (r: set<FieldError>)
    ensures preference != "phone" ==> r == {}
    ensures preference == "phone" ==> (Required in r <==> phone == "")
    ensures preference == "phone" ==> (Pattern in r <==> phone != "" && !ReactiveForms.PhonePattern(phone))
    ensures UsernameTaken !in r
  {
    if preference != "phone" then {}
    else if phone == "" then {Required}
    else if ReactiveForms.PhonePattern(phone) then {}
    else {Pattern}
  }

  /** With the phone preferred, the phone is accepted exactly when it is a
      non-empty string of digits, white space and `-+()`. */
  lemma PhoneRuleWhenPreferred(phone: String)
    ensures PhoneErrors("phone", phone) == {} <==>
      |phone| > 0 && forall i :: 0 <= i < |phone| ==> ReactiveForms.IsPhoneChar(phone[i])
  {
  }

  // ---------------------------------------------------------------------
  // Skills and experience

  datatype Skill = Skill(name: String, level: String, yearsOfExperience: int)

  /** The group `addSkill` creates. */
  const NewSkill := Skill("", "Intermediate", 1)

  const SkillLevels: seq<String> := ["Beginner", "Intermediate", "Advanced", "Expert"]

  /** `yearsOfExperience`: `min(0)` and `max(50)`. */
  predicate YearsValid(years: int) {
    0 <= years <= 50
  }

  datatype Experience = Experience(
    company: String, position: String, startDate: String,
    endDate: String, current: bool, description: String)

  /** The group `addExperience` creates. */
  const NewExperience := Experience("", "", "", "", false, "")

  /** `FormArray.removeAt(index)`: an index past the end removes nothing. */
  function RemoveAt<T>(xs: seq<T>, index: nat): (r: seq<T>)
    ensures index < |xs| ==> |r| == |xs| - 1 && r == xs[..index] + xs[index + 1..]
    ensures index >= |xs| ==> r == xs
  {
    if index < |xs| then xs[..index] + xs[index + 1..] else xs
  }

  // ---------------------------------------------------------------------
  // Component state

  datatype Profile = Profile(
    username: String,
    firstName: String, lastName: String, bio: String,
    email: String, phone: String, preferredContact: String,
    skills: seq<Skill>,
    experience: seq<Experience>)

  datatype AdvancedFormsDemo = AdvancedFormsDemo(
    form: Profile,
    touched: bool,
    submitted: bool,
    submittedData: Option<Profile>,
    valueChangesLog: seq<String>)

  /** After `ngOnInit`: empty fields, "email" preferred, one new skill. */
  const Initial := AdvancedFormsDemo(
    Profile("", "", "", "", "", "", "email", [NewSkill], []), false, false, None, [])

  /** `addSkill()`. */
  function AddSkill(c: AdvancedFormsDemo): (r: AdvancedFormsDemo)
    ensures |r.form.skills| == |c.form.skills| + 1
    ensures r.form.skills[..|c.form.skills|] == c.form.skills && Last(r.form.skills) == NewSkill
    ensures r == c.(form := r.form) && r.form == c.form.(skills := r.form.skills)
  {
    var skills := c.form.skills + [NewSkill];
    assert skills[..|c.form.skills|] == c.form.skills;
    c.(form := c.form.(skills := skills))
  }

  /** `removeSkill(index)`: the last remaining skill is never removed. */
  function RemoveSkill(c: AdvancedFormsDemo, index: nat): (r: AdvancedFormsDemo)
    ensures |c.form.skills| <= 1 ==> r == c
    ensures |c.form.skills| > 1 ==> r.form.skills == RemoveAt(c.form.skills, index)
    ensures |c.form.skills| >= 1 ==> |r.form.skills| >= 1
    ensures r == c.(form := c.form.(skills := r.form.skills))
  {
    if |c.form.skills| > 1 then c.(form := c.form.(skills := RemoveAt(c.form.skills, index)))
    else c
  }

  /** `addExperience()`. */
  function AddExperience(c: AdvancedFormsDemo): (r: AdvancedFormsDemo)
    ensures r.form.experience == c.form.experience + [NewExperience]
    ensures r == c.(form := c.form.(experience := r.form.experience))
  {
    c.(form := c.form.(experience := c.form.experience + [NewExperience]))
  }

  /** `removeExperience(index)`: unlike skills, the list may become empty. */
  function RemoveExperience(c: AdvancedFormsDemo, index: nat): (r: AdvancedFormsDemo)
    ensures r.form.experience == RemoveAt(c.form.experience, index)
    ensures r == c.(form := c.form.(experience := r.form.experience))
  {
    c.(form := c.form.(experience := RemoveAt(c.form.experience, index)))
  }

  /** `onCurrentJobChange(index)`: a current job has no end date. The source
      reads the entry at `index` without a check, so the index must exist. */
  function OnCurrentJobChange(c: AdvancedFormsDemo, index: nat): (r: AdvancedFormsDemo)
    requires index < |c.form.experience|
    ensures |r.form.experience| == |c.form.experience|
    ensures c.form.experience[index].current ==> r.form.experience[index] == c.form.experience[index].(endDate := "")
    ensures !c.form.experience[index].current ==> r == c
    ensures forall i :: 0 <= i < |c.form.experience| && i != index ==> r.form.experience[i] == c.form.experience[i]
  {
    var e := c.form.experience[index];
    if e.current then c.(form := c.form.(experience := c.form.experience[index := e.(endDate := "")]))
    else c
  }

  /** The subscription to `valueChanges`: one entry per change, newest
      first, at most ten kept. `timestamp` is the formatted local time. */
  function OnValueChange(c: AdvancedFormsDemo, timestamp: String): (r: AdvancedFormsDemo)
    ensures |r.valueChangesLog| > 0 && r.valueChangesLog[0] == "[" + timestamp + "] Form value changed"
    ensures |c.valueChangesLog| < BoundedLog.Capacity ==> r.valueChangesLog[1..] == c.valueChangesLog
    ensures |c.valueChangesLog| >= BoundedLog.Capacity ==>
      r.valueChangesLog[1..] == c.valueChangesLog[..|c.valueChangesLog| - 1]
    ensures |c.valueChangesLog| <= BoundedLog.Capacity ==>
      |r.valueChangesLog| == Min(|c.valueChangesLog| + 1, BoundedLog.Capacity)
    ensures r == c.(valueChangesLog := r.valueChangesLog)
  {
    c.(valueChangesLog := BoundedLog.Prepend(c.valueChangesLog, "[" + timestamp + "] Form value changed"))
  }

  /** `onSubmit()` with the form's validity as computed by the framework. */
  function OnSubmit(c: AdvancedFormsDemo, valid: bool): (r: AdvancedFormsDemo)
    ensures valid ==> r == c.(submitted := true, submittedData := Some(c.form))
    ensures !valid ==> r == c.(touched := true)
  {
    if valid then c.(submitted := true, submittedData := Some(c.form))
    else c.(touched := true)
  }

  /** `onReset()`: all controls emptied (the preference too, so no phone
      rule applies), one new skill, no experience, nothing submitted, and an
      empty log (the changes made by the reset itself are logged and then
      discarded). */
  function OnReset(c: AdvancedFormsDemo): (r: AdvancedFormsDemo)
    ensures r.form.skills == [NewSkill] && r.form.experience == []
    ensures !r.submitted && r.submittedData.None? && r.valueChangesLog == [] && !r.touched
    ensures PhoneErrors(r.form.preferredContact, r.form.phone) == {}
    ensures UsernameAvailability(r.form.username).None?
  {
    AdvancedFormsDemo(Profile("", "", "", "", "", "", "", [NewSkill], []), false, false, None, [])
  }

  /** Reachable states always have a skill and a log of at most ten entries. */
  predicate Invariant(c: AdvancedFormsDemo) {
    |c.form.skills| >= 1 && |c.valueChangesLog| <= BoundedLog.Capacity
  }

  datatype Action =
    | DoAddSkill | DoRemoveSkill(index: nat)
    | DoAddExperience | DoRemoveExperience(experienceIndex: nat) | DoCurrentJobChange(jobIndex: nat)
    | DoValueChange(timestamp: String)
    | DoSubmit(valid: bool) | DoReset

  function Apply(c: AdvancedFormsDemo, a: Action): AdvancedFormsDemo {
    match a
    case DoAddSkill => AddSkill(c)
    case DoRemoveSkill(i) => RemoveSkill(c, i)
    case DoAddExperience => AddExperience(c)
    case DoRemoveExperience(i) => RemoveExperience(c, i)
    case DoCurrentJobChange(i) => if i < |c.form.experience| then OnCurrentJobChange(c, i) else c
    case DoValueChange(t) => OnValueChange(c, t)
    case DoSubmit(v) => OnSubmit(c, v)
    case DoReset => OnReset(c)
  }

  function Run(actions: seq<Action>): AdvancedFormsDemo {
    if actions == [] then Initial else Apply(Run(actions[..|actions| - 1]), Last(actions))
  }

  /** Every action keeps the invariant. */
  lemma ApplyKeepsInvariant(c: AdvancedFormsDemo, a: Action)
    requires Invariant(c)
    ensures Invariant(Apply(c, a))
  {
    if a.DoValueChange? {
      BoundedLog.PrependBounded(c.valueChangesLog, "[" + a.timestamp + "] Form value changed");
    }
  }

  /** Hence no sequence of actions empties the skills list or grows the log
      past ten entries. */
  lemma {:induction false} RunKeepsInvariant(actions: seq<Action>)
    ensures Invariant(Run(actions))
  {
    if actions != [] {
      RunKeepsInvariant(actions[..|actions| - 1]);
      ApplyKeepsInvariant(Run(actions[..|actions| - 1]), Last(actions));
    }
  }
}
