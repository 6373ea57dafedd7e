/** The page a reset link opens: the token comes from the `token` query parameter, is
    validated once, and gates the new-password form. */
module ResetPasswordForm {
  import opened Remote
  import WebStorage

  const MinLength: nat := 6
  const RefusedText: string := "Erro ao redefinir senha"

  /** The body of the change request; the token is `null` when the query had none. */
  datatype ChangeRequest = ChangeRequest(token: Option<string>, newPassword: string)

  class ResetPasswordFormPage {
    const token: Option<string>
    var newPassword: string
    var confirmPassword: string
    var loading: bool
    var tokenValid: Option<bool>
    var validatingToken: bool
    var redirectScheduled: bool
    var toasts: seq<Toast>

    /** The page opened with the given query parameters; a `:token` path segment is not read. */
    constructor (query: map<string, string>)
      ensures token == WebStorage.Get(query, "token")
      ensures newPassword == "" && confirmPassword == "" && !loading
      ensures tokenValid.None? && validatingToken && !redirectScheduled && toasts == []
    {
      token := WebStorage.Get(query, "token");
      newPassword, confirmPassword, loading := "", "", false;
      tokenValid, validatingToken, redirectScheduled, toasts := None, true, false, [];
    }

    /** The form shows once validation has finished and the token was not found invalid. */
    predicate FormShown()
      reads this
    {
      !validatingToken && tokenValid != Some(false)
    }

    /** `validateToken`: true on a success answer, false on a refusal (with the expired-token
        toast) and on a failed call (with the server's message or the invalid-token toast). */
    method ValidateToken(outcome: Outcome<Reply>, t: string -> string)
      modifies this
      ensures tokenValid == Some(outcome.Success? && outcome.value.success)
      ensures outcome.Success? && outcome.value.success ==> toasts == old(toasts)
      ensures outcome.Success? && !outcome.value.success ==> toasts == old(toasts) + [ErrorToast(t("resetTokenExpired"))]
      ensures outcome.Failure? ==> toasts == old(toasts) + [ErrorToast(OrElse(outcome.serverMessage, t("invalidResetToken")))]
      ensures !validatingToken
      ensures newPassword == old(newPassword) && confirmPassword == old(confirmPassword) && loading == old(loading)
      ensures redirectScheduled == old(redirectScheduled)
    {
      if outcome.Success? {
        if outcome.value.success {
          tokenValid := Some(true);
        } else {
          tokenValid := Some(false);
          toasts := toasts + [ErrorToast(t("resetTokenExpired"))];
        }
      } else {
        tokenValid := Some(false);
        toasts := toasts + [ErrorToast(OrElse(outcome.serverMessage, t("invalidResetToken")))];
      }
      validatingToken := false;
    }

    /** The mount effect: no token (or an empty one) means invalid without any request;
        otherwise the token is validated. Afterwards the form shows exactly when a token was
        sent and accepted. */
    method Bootstrap(outcome: Outcome<Reply>, t: string -> string) returns (requested: bool)
      modifies this
      ensures requested <==> WebStorage.Truthy(token)
      ensures !requested ==> tokenValid == Some(false) && toasts == old(toasts) + [ErrorToast(t("invalidResetToken"))]
      ensures !validatingToken
      ensures FormShown() <==> requested && outcome.Success? && outcome.value.success
    {
      if !WebStorage.Truthy(token) {
        toasts := toasts + [ErrorToast(t("invalidResetToken"))];
        tokenValid := Some(false);
        validatingToken := false;
        requested := false;
        return;
      }
      requested := true;
      ValidateToken(outcome, t);
    }

    /** `handleSubmit`: different passwords, then passwords shorter than six characters, are
        refused before any request; otherwise the token and the new password are sent, and
        a success answer schedules the redirect to the login page. `loading` ends false. */
    method HandleSubmit(outcome: Outcome<Reply>, t: string -> string) returns (request: Option<ChangeRequest>)
      modifies this
      ensures newPassword != confirmPassword ==>
        request.None? && toasts == old(toasts) + [ErrorToast(t("passwordsDoNotMatch"))]
      ensures newPassword == confirmPassword && |newPassword| < MinLength ==>
        request.None? && toasts == old(toasts) + [ErrorToast(t("passwordTooShort"))]
      ensures request.Some? <==> newPassword == confirmPassword && |newPassword| >= MinLength
      ensures request.Some? ==> request.value == ChangeRequest(token, newPassword)
      ensures request.Some? && outcome.Success? && outcome.value.success ==>
        redirectScheduled && toasts == old(toasts) + [SuccessToast(t("passwordResetSuccess"))]
      ensures request.Some? && !(outcome.Success? && outcome.value.success) ==>
        redirectScheduled == old(redirectScheduled)
        && toasts == old(toasts) + [ErrorToast(ReplyError(outcome, RefusedText, RefusedText))]
      ensures request.None? ==> redirectScheduled == old(redirectScheduled)
      ensures newPassword == old(newPassword) && confirmPassword == old(confirmPassword)
      ensures tokenValid == old(tokenValid) && validatingToken == old(validatingToken)
      ensures !loading
    {
      loading := true;
      if newPassword != confirmPassword {
        toasts := toasts + [ErrorToast(t("passwordsDoNotMatch"))];
        loading := false;
        request := None;
        return;
      }
      if |newPassword| < MinLength {
        toasts := toasts + [ErrorToast(t("passwordTooShort"))];
        loading := false;
        request := None;
        return;
      }
      request := Some(ChangeRequest(token, newPassword));
      if outcome.Success? && outcome.value.success {
        toasts := toasts + [SuccessToast(t("passwordResetSuccess"))];
        redirectScheduled := true;
      } else {
        toasts := toasts + [ErrorToast(ReplyError(outcome, RefusedText, RefusedText))];
      }
      loading := false;
    }
  }
}
