/** The create/edit dialog of an administrator account: initial form, the password rule, the
    payloads and the current-user lock on the role. */
module UserModal {
  import opened Remote
  import opened Types

  datatype Form = Form(name: string, email: string, password: string, role: string)

  /** The characters JavaScript's `trim` removes. */
  predicate IsSpace(c: char)
  {
    var n := c as int;
    (9 <= n <= 13) || n == 32 || n == 0xA0 || n == 0x1680 || (0x2000 <= n <= 0x200A)
    || n == 0x2028 || n == 0x2029 || n == 0x202F || n == 0x205F || n == 0x3000 || n == 0xFEFF
  }

  /** `s.trim() === ''`. */
  predicate Blank(s: string)
  {
    forall i :: 0 <= i < |s| ==> IsSpace(s[i])
  }

  /** The form when the dialog opens: the user's name, e-mail and role with an empty password,
      or an empty form with the role 'user'. */
  function InitialForm(user: Option<User>): (f: Form)
    ensures user.Some? ==> f == Form(user.value.name, user.value.email, "", user.value.role)
    ensures user.None? ==> f == Form("", "", "", "user")
    ensures f.password == ""
  {
    if user.Some? then Form(user.value.name, user.value.email, "", user.value.role) else Form("", "", "", "user")
  }

  /** The update payload: name, e-mail and role, and the password as typed when it is not
      blank. */
  function UpdatePayload(f: Form): (p: map<string, string>)
    ensures "password" in p <==> !Blank(f.password)
    ensures "password" in p ==> p["password"] == f.password
    ensures p - {"password"} == map["name" := f.name, "email" := f.email, "role" := f.role]
  {
    var base := map["name" := f.name, "email" := f.email, "role" := f.role];
    assert base - {"password"} == base;
    if !Blank(f.password) then base["password" := f.password] else base
  }

  /** The create payload: exactly name, e-mail, password and role. */
  function CreatePayload(f: Form): (p: map<string, string>)
    ensures p.Keys == {"name", "email", "password", "role"}
    ensures p["password"] == f.password && p["name"] == f.name && p["email"] == f.email && p["role"] == f.role
  {
    map["name" := f.name, "email" := f.email, "password" := f.password, "role" := f.role]
  }

  /** A user id as the dialog receives it: the account's number, or the signed-in id as given
      by the caller (number or text). */
  datatype Id = NumId(n: int) | TextId(s: string)

  /** `user?.id === currentUserId`: strict equality, so a textual id never equals a numeric
      one, and with neither a user nor a current id both sides are undefined and equal. */
  predicate IsCurrentUser(user: Option<User>, currentUserId: Option<Id>)
  {
    (if user.Some? then Some(NumId(user.value.id)) else None) == currentUserId
  }

  lemma IsCurrentUserCases(u: User, n: int, s: string)
    ensures IsCurrentUser(Some(u), Some(NumId(n))) <==> u.id == n
    ensures !IsCurrentUser(Some(u), Some(TextId(s)))
    ensures !IsCurrentUser(Some(u), None)
    ensures IsCurrentUser(None, None)
  {
  }

  class Modal {
    var formData: Form
    var loading: bool
    var alert: Option<string>

    constructor ()
      ensures formData == Form("", "", "", "user") && !loading && alert.None?
    {
      formData := Form("", "", "", "user");
      loading, alert := false, None;
    }

    /** The effect on a new user or on opening. */
    method Reset(user: Option<User>)
      modifies this
      ensures formData == InitialForm(user) && alert.None? && loading == old(loading)
    {
      formData := InitialForm(user);
      alert := None;
    }

    /** `handleSubmit`: creating with a blank password is refused before anything is sent;
        otherwise the payload is sent, success closes the dialog and a failure shows its
        message (or the default). `loading` ends false on every path. */
    method HandleSubmit(isEditing: bool, outcome: Outcome<()>) returns (sent: Option<map<string, string>>, closed: bool)
      modifies this
      ensures !isEditing && Blank(formData.password) ==>
        sent.None? && !closed && alert == Some("Senha é obrigatória para novos usuários")
      ensures isEditing ==> sent == Some(UpdatePayload(formData))
      ensures !isEditing && !Blank(formData.password) ==> sent == Some(CreatePayload(formData))
      ensures sent.Some? ==> (closed <==> outcome.Success?)
      ensures sent.Some? && outcome.Success? ==> alert.None?
      ensures sent.Some? && outcome.Failure? ==> alert == Some(OrElse(outcome.message, "Erro ao salvar usuário"))
      ensures !loading && formData == old(formData)
    {
      loading := true;
      alert := None;
      if isEditing {
        sent := Some(UpdatePayload(formData));
      } else {
        if Blank(formData.password) {
          alert := Some("Senha é obrigatória para novos usuários");
          sent, closed := None, false;
          loading := false;
          return;
        }
        sent := Some(CreatePayload(formData));
      }
      if outcome.Success? {
        closed := true;
      } else {
        closed := false;
        alert := Some(OrElse(outcome.message, "Erro ao salvar usuário"));
      }
      loading := false;
    }
  }

  /** Every password a save sends, on create or update, is not blank. */
  lemma SentPasswordNotBlank(f: Form, isEditing: bool)
    ensures isEditing && "password" in UpdatePayload(f) ==> !Blank(UpdatePayload(f)["password"])
    ensures !isEditing && !Blank(f.password) ==> !Blank(CreatePayload(f)["password"])
  {
  }
}
