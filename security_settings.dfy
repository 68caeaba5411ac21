/**
 * The change-password form: the `securitySchema` checks, including the
 * refinement that the two new passwords agree, and the submit that clears
 * the form.
 */
module SecuritySettings {
  import opened HookForm

  datatype SecurityValues = SecurityValues(currentPassword: string, newPassword: string, confirmPassword: string)

  const Defaults: SecurityValues := SecurityValues("", "", "")

  /** What the schema accepts. */
  predicate SecurityValid(v: SecurityValues) {
    v.currentPassword != "" && |v.newPassword| >= 8 && v.confirmPassword != "" && v.newPassword == v.confirmPassword
  }

  /**
   * `securitySchema`: the field checks, then the refinement. The field
   * checks do not stop the refinement from running, so a mismatch is
   * reported alongside them, on the `confirmPassword` path.
   */
  function SecurityIssues(v: SecurityValues): (r: seq<Issue>)
    ensures r == [] <==> SecurityValid(v)
    ensures Issue("currentPassword", "Current password is required") in r <==> v.currentPassword == ""
    ensures Issue("newPassword", "Password must be at least 8 characters") in r <==> |v.newPassword| < 8
    ensures Issue("confirmPassword", "Please confirm your new password") in r <==> v.confirmPassword == ""
    ensures Issue("confirmPassword", "Passwords don't match") in r <==> v.newPassword != v.confirmPassword
  {
    MinLength("currentPassword", v.currentPassword, 1, "Current password is required")
    + MinLength("newPassword", v.newPassword, 8, "Password must be at least 8 characters")
    + MinLength("confirmPassword", v.confirmPassword, 1, "Please confirm your new password")
    + (if v.newPassword == v.confirmPassword then [] else [Issue("confirmPassword", "Passwords don't match")])
  }

  /** The form's values and the component's `isSubmitting` cell. */
  datatype FormState = FormState(values: SecurityValues, isSubmitting: bool)

  /** react-hook-form's `isDirty`: the values differ from the defaults. */
  predicate IsDirty(s: FormState) {
    s.values != Defaults
  }

  predicate ButtonDisabled(s: FormState) {
    SubmitDisabled(s.isSubmitting, IsDirty(s))
  }

  /**
   * The states a click on the submit button goes through. A disabled button
   * or invalid values leave the form as it is; otherwise `isSubmitting` is
   * set, and after the simulated update `reset()` restores the defaults and
   * `isSubmitting` is cleared.
   */
  function SubmitPhases(s: FormState): (phases: seq<FormState>)
    ensures |phases| >= 1 && phases[0] == s
    ensures ButtonDisabled(s) || !SecurityValid(s.values) ==> phases == [s]
    ensures !ButtonDisabled(s) && SecurityValid(s.values) ==>
              |phases| == 3 && phases[1] == FormState(s.values, true) && phases[2] == FormState(Defaults, false)
  {
    if ButtonDisabled(s) || SecurityIssues(s.values) != [] then [s]
    else [s, s.(isSubmitting := true), FormState(Defaults, false)]
  }

  /**
   * Every submit ends with `isSubmitting` false; while it runs the button is
   * disabled, and a successful one leaves the form clean, so the button stays
   * disabled until the user types again.
   */
  lemma SubmitEndsIdle(s: FormState)
    requires !s.isSubmitting
    ensures var phases := SubmitPhases(s);
            && !phases[|phases| - 1].isSubmitting
            && (forall i | 0 < i < |phases| - 1 :: ButtonDisabled(phases[i]))
            && (|phases| > 1 ==> !IsDirty(phases[|phases| - 1]) && ButtonDisabled(phases[|phases| - 1]))
  {
  }

  /** A clean form cannot be submitted, so the empty defaults never reach the schema. */
  lemma CleanFormNotSubmitted(s: FormState)
    requires s.values == Defaults
    ensures SubmitPhases(s) == [s]
  {
  }
}
