/**
 * What the settings forms share: zod's string-length check and the
 * react-hook-form submit button.
 */
module HookForm {
  /** A validation issue, reported on one field path. */
  datatype Issue = Issue(path: string, message: string)

  /**
   * zod's `.min(n, message)` on a string field: one issue on `path` when
   * the value is shorter than `n`, none otherwise.
   */
  function MinLength(path: string, value: string, n: nat, message: string): (r: seq<Issue>)
    ensures r == [] <==> |value| >= n
    ensures r != [] ==> r == [Issue(path, message)]
  {
    if |value| < n then [Issue(path, message)] else []
  }

  /** The submit button is disabled while a submit runs or while the form equals its defaults. */
  predicate SubmitDisabled(isSubmitting: bool, isDirty: bool) {
    isSubmitting || !isDirty
  }
}
