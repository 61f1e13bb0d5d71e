/**
 * The change-password dialog: the checks made before the request is
 * sent, the fields cleared after it succeeds, and the rule that keeps a
 * user on the initial password from closing it.
 */
module ChangePasswordModal {
  import opened Wrappers
  import Auth

  /** The two inputs and the error line. */
  datatype ModalState = ModalState(newPassword: string, confirmPassword: string, error: string)

  const TooShort := "비밀번호는 최소 4자 이상이어야 합니다."
  const Mismatch := "비밀번호가 일치하지 않습니다."
  const InitialRefused := "초기 비밀번호(1234)는 사용할 수 없습니다."
  const ChangeFailed := "비밀번호 변경에 실패했습니다."
  const MustChange := "보안을 위해 비밀번호를 변경해야 합니다."

  /** The new password and its confirmation pass the dialog's checks. */
  predicate Acceptable(s: ModalState) {
    |s.newPassword| >= 4 && s.newPassword == s.confirmPassword && s.newPassword != "1234"
  }

  /** The dialog after a submit, and the two passwords handed to
      `onSubmit` (`None` when a check stopped it). `outcome` is what
      `onSubmit` does: succeed, or fail with a message. */
  datatype Submitted = Submitted(state: ModalState, sent: Option<(string, string)>)

  /** `handleSubmit`: the length first, then the confirmation, then the
      initial password; a successful request clears everything. */
  function Submit(s: ModalState, outcome: Result<(), string>): (r: Submitted)
    ensures |s.newPassword| < 4 ==> r == Submitted(s.(error := TooShort), None)
    ensures |s.newPassword| >= 4 && s.newPassword != s.confirmPassword ==> r == Submitted(s.(error := Mismatch), None)
    ensures |s.newPassword| >= 4 && s.newPassword == s.confirmPassword && s.newPassword == "1234" ==>
      r == Submitted(s.(error := InitialRefused), None)
    ensures r.sent.Some? <==> Acceptable(s)
    ensures r.sent.Some? ==> r.sent.value == (s.newPassword, s.confirmPassword)
    ensures Acceptable(s) && outcome.Ok? ==> r.state == ModalState("", "", "")
    ensures Acceptable(s) && outcome.Err? ==>
      r.state == s.(error := if outcome.error == "" then ChangeFailed else outcome.error)
  {
    if |s.newPassword| < 4 then Submitted(s.(error := TooShort), None)
    else if s.newPassword != s.confirmPassword then Submitted(s.(error := Mismatch), None)
    else if s.newPassword == "1234" then Submitted(s.(error := InitialRefused), None)
    else
      var sent := Some((s.newPassword, s.confirmPassword));
      match outcome
      case Ok(_) => Submitted(ModalState("", "", ""), sent)
      case Err(message) => Submitted(s.(error := if message == "" then ChangeFailed else message), sent)
  }

  /** A password the dialog sends is one the server accepts, and with a
      matching confirmation the dialog refuses with the server's own
      message whenever the server would refuse. */
  lemma SentPasswordAccepted(s: ModalState, outcome: Result<(), string>)
    ensures Submit(s, outcome).sent.Some? ==> Auth.ChangePassword(s.newPassword).Ok?
    ensures s.newPassword == s.confirmPassword && Auth.ChangePassword(s.newPassword).Err? ==>
      Submit(s, outcome).sent.None? && Submit(s, outcome).state.error == Auth.ChangePassword(s.newPassword).error
  {
  }

  /** The dialog after a close request, and whether `onClose` ran. */
  datatype Closed = Closed(state: ModalState, closed: bool)

  /** `handleClose`: refused with a message while the password is the
      initial one; otherwise the fields are cleared and the dialog closes. */
  function Close(s: ModalState, isInitialPassword: bool): (r: Closed)
    ensures r.closed <==> !isInitialPassword
    ensures isInitialPassword ==> r.state == s.(error := MustChange)
    ensures !isInitialPassword ==> r.state == ModalState("", "", "")
  {
    if isInitialPassword then Closed(s.(error := MustChange), false) else Closed(ModalState("", "", ""), true)
  }
}
