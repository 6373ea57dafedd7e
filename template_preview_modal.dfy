/** The preview modal shown while a template is being edited. */
module TemplatePreviewModal {
  import opened Remote
  import opened Types
  import TemplatePreview

  /** The draft being edited. */
  datatype Draft = Draft(name: string, subject: string, kind: TemplateKind, content: string)

  datatype View = View(name: string, subject: string, preview: string, previewAsHtml: bool)

  /** Nothing when closed; otherwise the name and raw subject, and the content through the
      replacements, rendered as HTML for an HTML template and as preformatted text otherwise. */
  function Render(isOpen: bool, draft: Draft, date: string, time: string): (v: Option<View>)
    ensures v.Some? <==> isOpen
    ensures v.Some? ==>
      && v.value.subject == draft.subject
      && v.value.preview == TemplatePreview.Preview(draft.content, draft.subject, date, time)
      && (v.value.previewAsHtml <==> draft.kind == Html)
  {
    if !isOpen then None
    else Some(View(draft.name, draft.subject,
                   TemplatePreview.Preview(draft.content, draft.subject, date, time), draft.kind == Html))
  }

  /** A draft whose content is plain text without placeholders is previewed as written. */
  lemma PlainDraftUnchanged(draft: Draft, date: string, time: string)
    requires TemplatePreview.BraceFree(draft.content)
    ensures Render(true, draft, date, time).value.preview == draft.content
  {
    TemplatePreview.BraceFreeChain(draft.content, TemplatePreview.Replacements(draft.subject, date, time));
  }
}
