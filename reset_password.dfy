/** The public "forgot password" page: one request with the e-mail, then a confirmation view
    in place of the form. */
module ResetPassword {
  import opened Remote

  class ResetPasswordPage {
    var email: string
    var loading: bool
    var emailSent: bool
    var toasts: seq<Toast>

    constructor ()
      ensures email == "" && !loading && !emailSent && toasts == []
    {
      email, loading, emailSent, toasts := "", false, false, [];
    }

    /** The confirmation view replaces the form once the e-mail was sent. */
    predicate ConfirmationShown()
      reads this
    {
      emailSent
    }

    /** `handleSubmit`: sends only the e-mail; a success answer shows the confirmation; a refusal
        or a failed call shows the server's message, the error's message or the default, and
        leaves `emailSent` as it was. `loading` ends false. */
    method HandleSubmit(outcome: Outcome<Reply>, t: string -> string) returns (body: map<string, string>)
      modifies this
      ensures body == map["email" := email] && email == old(email)
      ensures outcome.Success? && outcome.value.success ==>
        emailSent && ConfirmationShown() && toasts == old(toasts) + [SuccessToast(t("resetEmailSent"))]
      ensures !(outcome.Success? && outcome.value.success) ==>
        emailSent == old(emailSent)
        && toasts == old(toasts) + [ErrorToast(ReplyError(outcome, "Erro ao enviar e-mail", "Erro ao enviar e-mail de redefinição"))]
      ensures !loading
    {
      loading := true;
      body := map["email" := email];
      if outcome.Success? && outcome.value.success {
        emailSent := true;
        toasts := toasts + [SuccessToast(t("resetEmailSent"))];
      } else {
        toasts := toasts + [ErrorToast(ReplyError(outcome, "Erro ao enviar e-mail", "Erro ao enviar e-mail de redefinição"))];
      }
      loading := false;
    }
  }

  /** The three sources of the error text, in order: the server's message, the error's own
      message (for a refusal, the reply's message or the refusal default), the fixed text. */
  lemma ErrorPrecedence(server: string, message: string, replyMessage: string)
    ensures server != "" ==> ReplyError(Failure(server, message), "Erro ao enviar e-mail", "Erro ao enviar e-mail de redefinição") == server
    ensures ReplyError(Failure("", message), "Erro ao enviar e-mail", "Erro ao enviar e-mail de redefinição")
         == OrElse(message, "Erro ao enviar e-mail de redefinição")
    ensures ReplyError(Success(Reply(false, replyMessage)), "Erro ao enviar e-mail", "Erro ao enviar e-mail de redefinição")
         == OrElse(replyMessage, "Erro ao enviar e-mail")
  {
  }
}
