/** The administrator's password-reset page: pick environments, send a reset request to each,
    then validate the received token and set the new password. */
module EmailSend {
  import opened Remote
  import opened TransferList
  import Environments

  /** The body of one `requestPasswordReset` call. */
  datatype ResetRequest = ResetRequest(moodleUrl: string, email: string, username: string)

  /** The body of the `changePassword` call. */
  datatype ChangeRequest = ChangeRequest(token: string, newPassword: string)

  const FillOneText: string := "Por favor, preencha pelo menos o email ou username"
  const SelectOneText: string := "Por favor, selecione pelo menos um ambiente"

  function ResetRequests(selected: seq<TransferItem>, email: string, username: string): (requests: seq<ResetRequest>)
    ensures |requests| == |selected|
    ensures forall i :: 0 <= i < |selected| ==> requests[i] == ResetRequest(selected[i].value, email, username)
  {
    seq(|selected|, i requires 0 <= i < |selected| => ResetRequest(selected[i].value, email, username))
  }

  class EmailSendPage {
    var loading: bool
    var email: string
    var username: string
    var emailSent: bool
    var token: string
    var newPassword: string
    var confirmPassword: string
    var validatingToken: bool
    var changingPassword: bool
    var tokenValid: bool
    var toasts: seq<Toast>
    const lists: Environments.EnvironmentLists

    constructor (lists: Environments.EnvironmentLists)
      ensures this.lists == lists && !loading && email == "" && username == "" && !emailSent
      ensures token == "" && newPassword == "" && confirmPassword == ""
      ensures !validatingToken && !changingPassword && !tokenValid && toasts == []
    {
      this.lists := lists;
      loading, email, username, emailSent := false, "", "", false;
      token, newPassword, confirmPassword := "", "", "";
      validatingToken, changingPassword, tokenValid, toasts := false, false, false, [];
    }

    /** The new-password fields are shown once a token was entered and validated. */
    predicate PasswordStepShown()
      reads this
    {
      emailSent && token != "" && tokenValid
    }

    /** `handleSendEmail`. At least one of e-mail and username (both may be given) and at least
        one environment are required, else an error toast and no request. Otherwise one request
        per selected environment, in order, whose results are summarised; `emailSent` becomes
        true when any succeeded and is never set back. `loading` ends false on every path. */
    method HandleSendEmail(outcomes: seq<Outcome<()>>) returns (requests: seq<ResetRequest>, results: seq<Environments.SendResult>)
      requires |outcomes| == |lists.selected|
      modifies this
      ensures email == old(email) && username == old(username) && token == old(token) && tokenValid == old(tokenValid)
      ensures newPassword == old(newPassword) && confirmPassword == old(confirmPassword)
      ensures !loading
      ensures email == "" && username == "" ==>
        requests == [] && results == [] && toasts == old(toasts) + [ErrorToast(FillOneText)] && emailSent == old(emailSent)
      ensures !(email == "" && username == "") && lists.selected == [] ==>
        requests == [] && results == [] && toasts == old(toasts) + [ErrorToast(SelectOneText)] && emailSent == old(emailSent)
      ensures !(email == "" && username == "") && lists.selected != [] ==>
        && |results| == |lists.selected|
        && (forall i :: 0 <= i < |results| ==> results[i] == Environments.ResultOf(lists.selected[i], outcomes[i]))
        && requests == ResetRequests(lists.selected, email, username)
        && toasts == old(toasts) + Environments.SummaryToasts(results)
        && emailSent == (old(emailSent) || |Environments.Successful(results)| > 0)
    {
      loading := true;
      if email == "" && username == "" {
        toasts := toasts + [ErrorToast(FillOneText)];
        requests, results := [], [];
        loading := false;
        return;
      }
      if |lists.selected| == 0 {
        toasts := toasts + [ErrorToast(SelectOneText)];
        requests, results := [], [];
        loading := false;
        return;
      }
      requests := ResetRequests(lists.selected, email, username);
      results := Environments.FanOut(lists.selected, outcomes);
      var successful := Environments.Successful(results);
      if |successful| > 0 {
        emailSent := true;
      }
      toasts := toasts + Environments.SummaryToasts(results);
      loading := false;
    }

    /** `handleValidateToken`: a success answer unlocks the password fields, a failed call locks
        them, and an answer without success changes nothing but the spinner. */
    method HandleValidateToken(outcome: Outcome<Reply>) returns (sentToken: string)
      modifies this
      ensures sentToken == token && token == old(token) && emailSent == old(emailSent)
      ensures outcome.Success? && outcome.value.success ==>
        tokenValid && toasts == old(toasts) + [SuccessToast("Token válido! Agora você pode definir uma nova senha.")]
      ensures outcome.Success? && !outcome.value.success ==> tokenValid == old(tokenValid) && toasts == old(toasts)
      ensures outcome.Failure? ==>
        !tokenValid && toasts == old(toasts) + [ErrorToast(OrElse(outcome.serverMessage, "Token inválido ou expirado"))]
      ensures !validatingToken
      ensures email == old(email) && username == old(username)
      ensures newPassword == old(newPassword) && confirmPassword == old(confirmPassword)
      ensures loading == old(loading) && changingPassword == old(changingPassword)
    {
      validatingToken := true;
      sentToken := token;
      if outcome.Success? {
        if outcome.value.success {
          toasts := toasts + [SuccessToast("Token válido! Agora você pode definir uma nova senha.")];
          tokenValid := true;
          validatingToken := false;
        }
      } else {
        toasts := toasts + [ErrorToast(OrElse(outcome.serverMessage, "Token inválido ou expirado"))];
        tokenValid := false;
      }
      validatingToken := false;
    }

    /** `handleChangePassword`: a confirmation that differs is refused before any request. A
        success clears the flow, the form and the selected list; it keeps `tokenValid` and the
        available list, so the environments that were selected are in neither list. */
    method HandleChangePassword(outcome: Outcome<Reply>) returns (request: Option<ChangeRequest>)
      modifies this, lists
      ensures old(newPassword) != old(confirmPassword) ==>
        request.None? && toasts == old(toasts) + [ErrorToast("As senhas não coincidem")]
        && emailSent == old(emailSent) && lists.selected == old(lists.selected) && token == old(token)
      ensures request.Some? ==> request.value == ChangeRequest(old(token), old(newPassword)) && old(newPassword) == old(confirmPassword)
      ensures old(newPassword) == old(confirmPassword) ==> request.Some?
      ensures request.Some? && outcome.Success? && outcome.value.success ==>
        toasts == old(toasts) + [SuccessToast("Senha alterada com sucesso!")]
        && !emailSent && token == "" && newPassword == "" && confirmPassword == ""
        && email == "" && username == "" && lists.selected == [] && !PasswordStepShown()
      ensures request.Some? && !(outcome.Success? && outcome.value.success) ==>
        emailSent == old(emailSent) && token == old(token) && lists.selected == old(lists.selected)
      ensures request.Some? && outcome.Failure? ==>
        toasts == old(toasts) + [ErrorToast(OrElse(outcome.serverMessage, "Erro ao alterar senha"))]
      ensures request.Some? && outcome.Success? && !outcome.value.success ==> toasts == old(toasts)
      ensures !(request.Some? && outcome.Success? && outcome.value.success) ==>
        email == old(email) && username == old(username)
        && newPassword == old(newPassword) && confirmPassword == old(confirmPassword)
      ensures tokenValid == old(tokenValid) && lists.available == old(lists.available) && lists.moodleUrls == old(lists.moodleUrls)
      ensures !changingPassword
      ensures loading == old(loading) && validatingToken == old(validatingToken)
    {
      changingPassword := true;
      if newPassword != confirmPassword {
        toasts := toasts + [ErrorToast("As senhas não coincidem")];
        request := None;
        changingPassword := false;
        return;
      }
      request := Some(ChangeRequest(token, newPassword));
      if outcome.Success? {
        if outcome.value.success {
          toasts := toasts + [SuccessToast("Senha alterada com sucesso!")];
          emailSent, token, newPassword, confirmPassword := false, "", "", "";
          email, username := "", "";
          lists.selected := [];
        }
      } else {
        toasts := toasts + [ErrorToast(OrElse(outcome.serverMessage, "Erro ao alterar senha"))];
      }
      changingPassword := false;
    }

    /** `resetForm`: clears the whole flow, `tokenValid` included, and rebuilds the available
        list from every loaded URL. */
    method ResetForm()
      modifies this, lists
      ensures !emailSent && token == "" && newPassword == "" && confirmPassword == "" && !tokenValid
      ensures email == "" && username == "" && lists.selected == []
      ensures lists.available == Environments.EnvironmentItems(lists.moodleUrls) && lists.moodleUrls == old(lists.moodleUrls)
      ensures toasts == old(toasts) && loading == old(loading)
    {
      emailSent, token, newPassword, confirmPassword, tokenValid := false, "", "", "", false;
      email, username := "", "";
      lists.selected := [];
      lists.available := Environments.EnvironmentItems(lists.moodleUrls);
    }
  }
}
