/** The reset-password form: two guards on the new password, then the
    request carrying the reset token. */
module ResetPassword {
  import opened Wrappers

  const TooShort := "Password must be at least 6 characters"
  const Mismatch := "Passwords do not match"
  const ResetDone := "Password has been reset. You can now log in."
  const ResetFailed := "Reset failed"

  /** The body posted to `/api/auth/reset-password`. */
  datatype ResetRequest = ResetRequest(token: string, password: string)

  /** The messages and spinner the form shows. */
  datatype View = View(error: string, success: string, loading: bool)

  /** The guards, in order: `!password || password.length < 6` (an empty
      password is shorter than 6, so one test covers both), then
      `password !== confirm`. `None` when both pass. */
  function Validate(password: string, confirm: string): (failure: Option<string>)
    ensures failure.None? <==> |password| >= 6 && password == confirm
    ensures |password| < 6 ==> failure == Some(TooShort)
    ensures |password| >= 6 && password != confirm ==> failure == Some(Mismatch)
  {
    if password == "" || |password| < 6 then Some(TooShort)
    else if password != confirm then Some(Mismatch)
    else None
  }

  /** One submit, run to completion. `reply` is what the server answered if
      a request is made: `None` for success, otherwise the `msg` of its error
      reply ("" when absent). Returns the new view and the request sent, if
      any. */
  function OnSubmit(prior: View, token: string, password: string, confirm: string, reply: Option<string>)
    : (out: (View, Option<ResetRequest>))
    ensures out.1.Some? <==> Validate(password, confirm).None?
    ensures out.1.Some? ==> out.1.value == ResetRequest(token, password)
    ensures Validate(password, confirm).Some? ==>
      out.0 == View(Validate(password, confirm).value, "", prior.loading)
    ensures out.1.Some? && reply.None? ==> out.0 == View("", ResetDone, false)
    ensures out.1.Some? && reply.Some? ==>
      out.0 == View(if reply.value != "" then reply.value else ResetFailed, "", false)
  {
    var cleared := prior.(error := "", success := "");
    match Validate(password, confirm)
    case Some(msg) => (cleared.(error := msg), None)
    case None =>
      var request := ResetRequest(token, password);
      match reply
      case None => (cleared.(success := ResetDone, loading := false), Some(request))
      case Some(msg) =>
        (cleared.(error := if msg != "" then msg else ResetFailed, loading := false), Some(request))
  }

  /** Whatever the form showed before, a submit starts from cleared messages:
      the view afterwards does not depend on the earlier error or success. */
  lemma MessagesCleared(p: View, q: View, token: string, password: string, confirm: string, reply: Option<string>)
    requires p.loading == q.loading
    ensures OnSubmit(p, token, password, confirm, reply) == OnSubmit(q, token, password, confirm, reply)
  {
  }

  /** The length guard comes first: a short password that also differs from
      its confirmation reports the length error. */
  lemma LengthCheckedFirst()
    ensures Validate("abc", "xyz") == Some(TooShort)
  {
  }
}
