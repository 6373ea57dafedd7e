/** The audit-log detail modal: the status shown after correcting it from the description,
    its Portuguese label, and the shortened token with its copy button. */
module AuditingViewModal {
  import opened Remote
  import opened Types
  import Text

  /** The label of a status; any other value is shown as it is. */
  function StatusText(status: string): (text: string)
    ensures status == "success" ==> text == "Sucesso"
    ensures status == "error" ==> text == "Erro"
    ensures status == "pending" ==> text == "Pendente"
    ensures status !in {"success", "error", "pending"} ==> text == status
  {
    if status == "success" then "Sucesso"
    else if status == "error" then "Erro"
    else if status == "pending" then "Pendente"
    else status
  }

  /** A non-empty description whose lower-cased form reports a missing user forces 'error';
      otherwise the stored status stands. */
  function CorrectedStatus(log: AuditLog, lower: string -> string): (status: string)
    ensures status == log.status || status == "error"
    ensures log.status == "error" ==> status == "error"
  {
    var d := lower(log.description);
    if log.description != ""
       && (Text.Contains(d, "usuário não encontrado") || Text.Contains(d, "user not found")
           || Text.Contains(d, "não encontrado"))
    then "error"
    else log.status
  }

  /** The test for 'usuário não encontrado' adds nothing: it contains 'não encontrado'. */
  lemma CorrectedStatusTwoPhrases(log: AuditLog, lower: string -> string)
    ensures CorrectedStatus(log, lower)
         == if log.description != ""
               && (Text.Contains(lower(log.description), "user not found")
                   || Text.Contains(lower(log.description), "não encontrado"))
            then "error" else log.status
  {
    var d := lower(log.description);
    if Text.Contains(d, "usuário não encontrado") {
      assert "não encontrado" <= "usuário não encontrado"[8..];
      Text.ContainsAt("usuário não encontrado", "não encontrado", 8);
      Text.ContainsTransitive(d, "usuário não encontrado", "não encontrado");
    }
  }

  /** The token line: its first 20 characters followed by "..." whenever there is a token,
      however short, and 'Desconhecido' otherwise. */
  function TokenDisplay(tokenUser: string): (shown: string)
    ensures tokenUser == "" ==> shown == "Desconhecido"
    ensures tokenUser != "" ==> shown == Text.Take(tokenUser, 20) + "..."
    ensures tokenUser != "" && |tokenUser| <= 20 ==> shown == tokenUser + "..."
  {
    if tokenUser != "" then Text.Take(tokenUser, 20) + "..." else "Desconhecido"
  }

  datatype View = View(statusText: string, status: string, token: string, copyButton: bool)

  /** Nothing renders when closed or without a log; the status shown is the corrected one,
      and the copy button exists exactly when there is a token. */
  function Render(isOpen: bool, log: Option<AuditLog>, lower: string -> string): (v: Option<View>)
    ensures v.Some? <==> isOpen && log.Some?
    ensures v.Some? ==>
      && v.value.status == CorrectedStatus(log.value, lower)
      && v.value.statusText == StatusText(v.value.status)
      && v.value.token == TokenDisplay(log.value.tokenUser)
      && (v.value.copyButton <==> log.value.tokenUser != "")
  {
    if !isOpen || log.None? then None
    else
      var status := CorrectedStatus(log.value, lower);
      Some(View(StatusText(status), status, TokenDisplay(log.value.tokenUser), log.value.tokenUser != ""))
  }
}
