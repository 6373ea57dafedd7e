/** The create/edit dialog of a Moodle web service: the form's initial values, the payloads
    with their optional fields, and the save outcome. */
module WebServiceModal {
  import opened Remote
  import opened Types

  datatype Form = Form(protocol: string, url: string, token: string, moodlePassword: string,
                       moodleUser: string, serviceName: string, route: string)

  const DefaultRoute: string := "/webservice/rest/server.php"

  /** The form when the dialog opens: the service's fields (its password, which the list
      records do not carry, only when present), or an empty form with https and the default
      route. */
  function InitialForm(service: Option<WebService>, storedPassword: string): (f: Form)
    ensures service.Some? ==>
      && f.protocol == service.value.protocol && f.url == service.value.url && f.token == service.value.token
      && f.moodleUser == service.value.moodleUser && f.serviceName == service.value.serviceName
      && f.route == service.value.route && f.moodlePassword == storedPassword
    ensures service.None? ==> f == Form("https", "", "", "", "", "", DefaultRoute)
  {
    if service.Some? then
      var s := service.value;
      Form(s.protocol, s.url, s.token, storedPassword, s.moodleUser, s.serviceName, s.route)
    else Form("https", "", "", "", "", "", DefaultRoute)
  }

  /** The four fields every payload has. */
  function BasePayload(f: Form): map<string, string>
  {
    map["protocol" := f.protocol, "url" := f.url, "token" := f.token, "serviceName" := f.serviceName]
  }

  /** `...(value && { key: value })`: the key only when its value is non-empty. */
  function WithIfSet(payload: map<string, string>, key: string, value: string): (r: map<string, string>)
    ensures value != "" ==> r == payload[key := value]
    ensures value == "" ==> r == payload
  {
    if value != "" then payload[key := value] else payload
  }

  /** The create payload: the four fields, and the Moodle user and route when filled. */
  function CreatePayload(f: Form): (p: map<string, string>)
    ensures "moodlePassword" !in p
    ensures p.Keys == {"protocol", "url", "token", "serviceName"}
                      + (if f.moodleUser != "" then {"moodleUser"} else {})
                      + (if f.route != "" then {"route"} else {})
    ensures p["protocol"] == f.protocol && p["url"] == f.url && p["token"] == f.token && p["serviceName"] == f.serviceName
    ensures "moodleUser" in p ==> p["moodleUser"] == f.moodleUser
    ensures "route" in p ==> p["route"] == f.route
  {
    WithIfSet(WithIfSet(BasePayload(f), "moodleUser", f.moodleUser), "route", f.route)
  }

  /** The update payload: the create payload, plus the Moodle password when filled. */
  function UpdatePayload(f: Form): (p: map<string, string>)
    ensures "moodlePassword" in p <==> f.moodlePassword != ""
    ensures "moodlePassword" in p ==> p["moodlePassword"] == f.moodlePassword
  {
    WithIfSet(CreatePayload(f), "moodlePassword", f.moodlePassword)
  }

  /** The two payloads differ only in the password: creating never sends it, even when typed. */
  lemma PayloadsDifferOnlyInPassword(f: Form)
    ensures CreatePayload(f) == UpdatePayload(f) - {"moodlePassword"}
    ensures "moodlePassword" !in CreatePayload(f)
  {
    assert CreatePayload(f) == UpdatePayload(f) - {"moodlePassword"} by {
      var c, u := CreatePayload(f), UpdatePayload(f) - {"moodlePassword"};
      assert forall k :: k in c <==> k in u;
      assert forall k :: k in c ==> c[k] == u[k];
    }
  }

  class Modal {
    var formData: Form
    var isEditingRoute: bool
    var loading: bool
    var alert: Option<string>

    constructor ()
      ensures formData == Form("https", "", "", "", "", "", "") && !isEditingRoute && !loading && alert.None?
    {
      formData := Form("https", "", "", "", "", "", "");
      isEditingRoute, loading, alert := false, false, None;
    }

    /** The effect on a new service or on opening. */
    method Reset(service: Option<WebService>, storedPassword: string)
      modifies this
      ensures formData == InitialForm(service, storedPassword)
      ensures !isEditingRoute && alert.None? && loading == old(loading)
    {
      formData := InitialForm(service, storedPassword);
      isEditingRoute := false;
      alert := None;
    }

    /** `handleSubmit`: sends the update payload when editing and the create payload otherwise;
        a successful save closes the dialog, a failed one shows its message (or the default)
        and keeps it open. */
    method HandleSubmit(isEditing: bool, outcome: Outcome<()>) returns (sent: map<string, string>, closed: bool)
      modifies this
      ensures sent == if isEditing then UpdatePayload(formData) else CreatePayload(formData)
      ensures closed <==> outcome.Success?
      ensures outcome.Success? ==> alert.None?
      ensures outcome.Failure? ==> alert == Some(OrElse(outcome.message, "Erro ao salvar WebService"))
      ensures !loading && formData == old(formData) && isEditingRoute == old(isEditingRoute)
    {
      loading := true;
      alert := None;
      sent := if isEditing then UpdatePayload(formData) else CreatePayload(formData);
      if outcome.Success? {
        closed := true;
      } else {
        closed := false;
        alert := Some(OrElse(outcome.message, "Erro ao salvar WebService"));
      }
      loading := false;
    }

    /** `handleRouteEditToggle`. */
    method HandleRouteEditToggle()
      modifies this
      ensures isEditingRoute == !old(isEditingRoute)
      ensures formData == old(formData) && loading == old(loading) && alert == old(alert)
    {
      isEditingRoute := !isEditingRoute;
    }
  }
}
