/** The records the admin pages receive from the server (`src/types/index.ts`). */
module Types {

  /** The two kinds of e-mail template. */
  datatype TemplateKind = Html | PlainText

  datatype Template = Template(
    id: string,
    name: string,
    description: string,
    subject: string,
    content: string,
    kind: TemplateKind,
    isActive: bool,
    isDefault: bool)

  /** An audited reset request; `status` is 'success', 'error' or 'pending' as sent by the
      server, and a missing text field is the empty text. */
  datatype AuditLog = AuditLog(
    id: string,
    userId: int,
    username: string,
    email: string,
    webServiceId: string,
    tokenUser: string,
    useToken: bool,
    emailSent: bool,
    tokenExpiresAt: string,
    description: string,
    status: string,
    createdAt: string,
    phone: string)

  datatype WebService = WebService(
    id: string,
    protocol: string,
    url: string,
    token: string,
    moodleUser: string,
    serviceName: string,
    route: string,
    isActive: bool)

  datatype User = User(id: int, name: string, email: string, role: string)
}
