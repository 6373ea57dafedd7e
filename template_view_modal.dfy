/** The template detail modal: status and type badges, the raw subject and content, and the
    sample-data preview of the content. */
module TemplateViewModal {
  import opened Remote
  import opened Types
  import TemplatePreview

  function StatusText(isActive: bool): (text: string)
    ensures text == "Ativo" || text == "Inativo"
    ensures isActive <==> text == "Ativo"
  {
    if isActive then "Ativo" else "Inativo"
  }

  function TypeText(kind: TemplateKind): (text: string)
    ensures kind == Html ==> text == "HTML"
    ensures kind == PlainText ==> text == "Texto"
  {
    if kind == Html then "HTML" else "Texto"
  }

  /** What the modal shows. */
  datatype View = View(
    name: string,
    subject: string,
    statusText: string,
    typeText: string,
    preview: string,
    previewAsHtml: bool,
    content: string)

  /** The modal renders nothing when closed or without a template; otherwise the subject and
      the content are shown as stored, and only the preview goes through the replacements,
      with the template's own subject, `date` and `time` standing for the browser clock. */
  function Render(isOpen: bool, template: Option<Template>, date: string, time: string): (v: Option<View>)
    ensures v.Some? <==> isOpen && template.Some?
    ensures v.Some? ==>
      var t := template.value;
      && v.value.subject == t.subject
      && v.value.content == t.content
      && v.value.preview == TemplatePreview.Preview(t.content, t.subject, date, time)
      && v.value.previewAsHtml == (t.kind == Html)
      && (v.value.statusText == "Ativo" <==> t.isActive)
  {
    if !isOpen || template.None? then None
    else
      var t := template.value;
      Some(View(t.name, t.subject, StatusText(t.isActive), TypeText(t.kind),
                TemplatePreview.Preview(t.content, t.subject, date, time), t.kind == Html, t.content))
  }

  /** The subject line is never expanded, even where it is a placeholder the preview knows. */
  lemma SubjectShownRaw(t: Template, date: string, time: string)
    requires t.subject == TemplatePreview.Placeholder("user.email")
    ensures Render(true, Some(t), date, time).value.subject == TemplatePreview.Placeholder("user.email")
    ensures TemplatePreview.Preview(t.subject, t.subject, date, time) == "joao@exemplo.com"
  {
    TemplatePreview.UserEmailPreview(t.subject, date, time);
  }
}
