/** The `BaseApi` HTTP client: the request interceptor that attaches the stored token and the
    response interceptor that turns a failed call into one error message. */
module Api {
  import opened Remote
  import WebStorage

  const TokenKey: string := "authToken"

  /** `sessionStorage.getItem('authToken') || localStorage.getItem('authToken')`, when it is
      non-empty. */
  function RequestToken(local: map<string, string>, session: map<string, string>): (t: Option<string>)
    ensures t.Some? ==> t.value != ""
    ensures WebStorage.Truthy(WebStorage.Get(session, TokenKey)) ==> t == WebStorage.Get(session, TokenKey)
    ensures !WebStorage.Truthy(WebStorage.Get(session, TokenKey)) && WebStorage.Truthy(WebStorage.Get(local, TokenKey)) ==>
      t == WebStorage.Get(local, TokenKey)
    ensures !WebStorage.Truthy(WebStorage.Get(session, TokenKey)) && !WebStorage.Truthy(WebStorage.Get(local, TokenKey)) ==>
      t.None?
  {
    var fromSession := WebStorage.Get(session, TokenKey);
    var fromLocal := WebStorage.Get(local, TokenKey);
    if WebStorage.Truthy(fromSession) then fromSession
    else if WebStorage.Truthy(fromLocal) then fromLocal
    else None
  }

  /** An HTTP failure as axios reports it: its code, the response status if any, the
      server's message ('' when missing) and the error's own message. */
  datatype HttpError = HttpError(code: string, status: Option<int>, serverMessage: string, message: string)

  const TimeoutText: string := "Timeout: A requisição demorou muito para responder"
  const SessionExpiredText: string := "Sessão expirada. Faça login novamente."
  const ConnectionText: string :=
    "Erro de conexão com o servidor. Verifique sua conexão com a internet e tente novamente."
  const DefaultText: string := "Erro na requisição"

  /** The response interceptor's message: timeout first, then an expired session, then the
      server's message, then a network failure, then the error's own message or the default. */
  function ErrorMessage(e: HttpError): (m: string)
    ensures m != ""
    ensures e.code == "ECONNABORTED" ==> m == TimeoutText
    ensures e.code != "ECONNABORTED" && e.status == Some(401) ==> m == SessionExpiredText
    ensures e.code != "ECONNABORTED" && e.status != Some(401) && e.serverMessage != "" ==> m == e.serverMessage
    ensures e.code != "ECONNABORTED" && e.status != Some(401) && e.serverMessage == "" && e.message == "Network Error" ==>
      m == ConnectionText
    ensures e.code != "ECONNABORTED" && e.status != Some(401) && e.serverMessage == "" && e.message != "Network Error" ==>
      m == OrElse(e.message, DefaultText)
  {
    if e.code == "ECONNABORTED" then TimeoutText
    else if e.status == Some(401) then SessionExpiredText
    else if e.serverMessage != "" then e.serverMessage
    else if e.message == "Network Error" then ConnectionText
    else OrElse(e.message, DefaultText)
  }

  /** A 401 is reported as an expired session even when the server explains it, and a timeout
      is reported as such even when a 401 status came with it. */
  lemma ClassificationOrder(server: string, message: string)
    ensures ErrorMessage(HttpError("", Some(401), server, message)) == SessionExpiredText
    ensures ErrorMessage(HttpError("ECONNABORTED", Some(401), server, message)) == TimeoutText
    ensures server != "" ==> ErrorMessage(HttpError("", None, server, "Network Error")) == server
  {
  }

  /** The client built by `BaseApi`; the default `api` instance has neither interceptor. */
  class BaseApi {
    const storage: WebStorage.Stores

    constructor (storage: WebStorage.Stores)
      ensures this.storage == storage
    {
      this.storage := storage;
    }

    /** The request interceptor: a Bearer header when a token is stored, nothing otherwise. */
    method InterceptRequest(headers: map<string, string>) returns (sent: map<string, string>)
      ensures var t := RequestToken(storage.local, storage.session);
        sent == if t.Some? then headers["Authorization" := "Bearer " + t.value] else headers
      ensures "Authorization" in sent && "Authorization" !in headers ==>
        RequestToken(storage.local, storage.session).Some?
    {
      var token := RequestToken(storage.local, storage.session);
      sent := headers;
      if token.Some? {
        sent := sent["Authorization" := "Bearer " + token.value];
      }
    }

    /** The response interceptor on a failure: the message thrown, and on a 401 (not a
        timeout) both stored tokens removed, `rememberMe` kept. */
    method InterceptError(e: HttpError) returns (message: string)
      modifies storage
      ensures message == ErrorMessage(e)
      ensures e.code != "ECONNABORTED" && e.status == Some(401) ==>
        storage.local == old(storage.local) - {TokenKey} && storage.session == old(storage.session) - {TokenKey}
      ensures !(e.code != "ECONNABORTED" && e.status == Some(401)) ==>
        storage.local == old(storage.local) && storage.session == old(storage.session)
    {
      if e.code != "ECONNABORTED" && e.status == Some(401) {
        storage.session := storage.session - {TokenKey};
        storage.local := storage.local - {TokenKey};
      }
      message := ErrorMessage(e);
    }
  }

  /** After a 401 no request carries a token any more. */
  lemma ExpiredSessionSendsNoToken(local: map<string, string>, session: map<string, string>)
    ensures RequestToken(local - {TokenKey}, session - {TokenKey}).None?
  {
  }
}
