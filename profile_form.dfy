/**
 * The personal-details form: `profileSchema`, the reset from the signed-in
 * user, the avatar initial and the submit.
 */
module ProfileSettings {
  import opened Wrappers
  import opened HookForm
  import Js

  datatype ProfileValues = ProfileValues(firstName: string, lastName: string, email: string, phone: string)

  /** The signed-in user's fields the form reads; each may be missing. */
  datatype ProfileUser = ProfileUser(
    first_name: Option<string>,
    last_name: Option<string>,
    email: Option<string>,
    phone: Option<string>)

  const Defaults: ProfileValues := ProfileValues("", "", "", "")

  /**
   * What the schema accepts. `isEmail` stands for zod's email check, whose
   * pattern is the library's.
   */
  predicate ProfileValid(v: ProfileValues, isEmail: string -> bool) {
    |v.firstName| >= 2 && |v.lastName| >= 2 && isEmail(v.email) && |v.phone| >= 10
  }

  /** `profileSchema`: every failed check, in field order. */
  function ProfileIssues(v: ProfileValues, isEmail: string -> bool): (r: seq<Issue>)
    ensures r == [] <==> ProfileValid(v, isEmail)
    ensures Issue("firstName", "First name must be at least 2 chars") in r <==> |v.firstName| < 2
    ensures Issue("lastName", "Last name must be at least 2 chars") in r <==> |v.lastName| < 2
    ensures Issue("email", "Invalid email address") in r <==> !isEmail(v.email)
    ensures Issue("phone", "Phone number is too short") in r <==> |v.phone| < 10
  {
    MinLength("firstName", v.firstName, 2, "First name must be at least 2 chars")
    + MinLength("lastName", v.lastName, 2, "Last name must be at least 2 chars")
    + (if isEmail(v.email) then [] else [Issue("email", "Invalid email address")])
    + MinLength("phone", v.phone, 10, "Phone number is too short")
  }

  /** The values the form is reset to for a user: each field, or "" when it is missing or empty. */
  function ValuesOf(user: ProfileUser): (v: ProfileValues)
    ensures v.firstName == if Js.Truthy(user.first_name) then user.first_name.value else ""
    ensures v.lastName == if Js.Truthy(user.last_name) then user.last_name.value else ""
    ensures v.email == if Js.Truthy(user.email) then user.email.value else ""
    ensures v.phone == if Js.Truthy(user.phone) then user.phone.value else ""
  {
    ProfileValues(Js.OrElse(user.first_name, ""), Js.OrElse(user.last_name, ""),
                  Js.OrElse(user.email, ""), Js.OrElse(user.phone, ""))
  }

  /**
   * The form: its values, the defaults `reset` last installed (what
   * `isDirty` compares against), and the component's `isSubmitting` cell.
   */
  datatype FormState = FormState(values: ProfileValues, defaults: ProfileValues, isSubmitting: bool)

  const InitialForm: FormState := FormState(Defaults, Defaults, false)

  predicate IsDirty(s: FormState) {
    s.values != s.defaults
  }

  predicate ButtonDisabled(s: FormState) {
    SubmitDisabled(s.isSubmitting, IsDirty(s))
  }

  /** The effect run when the user changes: with a user, `reset` to its values; without, nothing. */
  function UserEffect(s: FormState, user: Option<ProfileUser>): (r: FormState)
    ensures user.None? ==> r == s
    ensures user.Some? ==> r.values == r.defaults == ValuesOf(user.value) && !IsDirty(r)
    ensures r.isSubmitting == s.isSubmitting
  {
    if user.Some? then s.(values := ValuesOf(user.value), defaults := ValuesOf(user.value)) else s
  }

  /** The avatar letter: "U" without a first name, else its first character upper-cased. */
  function Initials(user: Option<ProfileUser>): (r: string)
    ensures |r| == 1
    ensures user.None? || !Js.Truthy(user.value.first_name) ==> r == "U"
    ensures user.Some? && Js.Truthy(user.value.first_name) ==> r == [Js.UpperAscii(user.value.first_name.value[0])]
  {
    if user.None? || !Js.Truthy(user.value.first_name) then "U"
    else [Js.UpperAscii(user.value.first_name.value[0])]
  }

  /** An ASCII first name gives a capital letter, whatever its case. */
  lemma InitialIsCapital(user: ProfileUser)
    requires Js.Truthy(user.first_name) && ('a' <= user.first_name.value[0] <= 'z' || 'A' <= user.first_name.value[0] <= 'Z')
    ensures 'A' <= Initials(Some(user))[0] <= 'Z'
  {
  }

  /**
   * The states a click on the submit button goes through: nothing when the
   * button is disabled or the values are invalid; otherwise `isSubmitting`
   * is set and then cleared. The values are kept and not reset.
   */
  function SubmitPhases(s: FormState, isEmail: string -> bool): (phases: seq<FormState>)
    ensures |phases| >= 1 && phases[0] == s
    ensures ButtonDisabled(s) || !ProfileValid(s.values, isEmail) ==> phases == [s]
    ensures !ButtonDisabled(s) && ProfileValid(s.values, isEmail) ==>
              |phases| == 3 && phases[1] == s.(isSubmitting := true) && phases[2] == s.(isSubmitting := false)
  {
    if ButtonDisabled(s) || ProfileIssues(s.values, isEmail) != [] then [s]
    else [s, s.(isSubmitting := true), s.(isSubmitting := false)]
  }

  /** Right after the reset from a user, the form cannot be submitted. */
  lemma ResetFormNotSubmitted(s: FormState, user: ProfileUser, isEmail: string -> bool)
    ensures SubmitPhases(UserEffect(s, Some(user)), isEmail) == [UserEffect(s, Some(user))]
  {
  }

  /** Every submit ends with `isSubmitting` false; the button is disabled while it runs. */
  lemma SubmitEndsIdle(s: FormState, isEmail: string -> bool)
    requires !s.isSubmitting
    ensures var phases := SubmitPhases(s, isEmail);
            && !phases[|phases| - 1].isSubmitting
            && phases[|phases| - 1].values == s.values
            && (forall i | 0 < i < |phases| - 1 :: ButtonDisabled(phases[i]))
  {
  }
}
