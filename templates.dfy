/** The Templates admin page: the variable catalog with its `(limit)` companions, the
    template list with search and pages, and the status toggle. */
module Templates {
  import opened Remote
  import opened Types
  import Text
  import Paging
  import TemplatePreview

  /** An entry of the variable catalog. */
  datatype Variable = Variable(category: string, key: string, description: string, example: string, usage: string)

  /** A catalog entry; its usage is the key written as a placeholder. */
  function Entry(category: string, key: string, description: string, example: string): (v: Variable)
    ensures v.category == category && v.key == key
    ensures v.usage == TemplatePreview.Placeholder(key)
  {
    Variable(category, key, description, example, TemplatePreview.Placeholder(key))
  }

  /** The catalog used when the server's cannot be fetched. */
  function DefaultVariables(): (vs: seq<Variable>)
    ensures |vs| == 13
    ensures forall v :: v in vs ==> v.usage == TemplatePreview.Placeholder(v.key)
  {
    [ Entry("user", "user.fullname", "Nome completo do usuário", "João Silva"),
      Entry("user", "user.email", "Email do usuário", "joao@exemplo.com"),
      Entry("user", "user.username", "Nome de usuário", "joao.silva"),
      Entry("reset", "reset.link", "Link de redefinição", "https://exemplo.com/reset"),
      Entry("reset", "reset.token", "Token de reset", "abc123def456"),
      Entry("reset", "reset.expires_at", "Tempo de expiração", "24 horas"),
      Entry("system", "system.site_name", "Nome do site", "OXYGENI - CEUMA"),
      Entry("system", "system.support_email", "Email de suporte", "suporte@ceuma.br"),
      Entry("email", "email.subject", "Assunto do email", "Redefinição de Senha"),
      Entry("message", "message.title", "Título da mensagem", "Redefinição de Senha"),
      Entry("message", "message.content", "Conteúdo da mensagem", "Você solicitou..."),
      Entry("date", "date.current", "Data atual", "25/01/2025"),
      Entry("time", "time.current", "Hora atual", "14:30:00") ]
  }

  /** The default keys are exactly the thirteen keys the preview replaces, in the same order. */
  lemma DefaultKeysArePreviewKeys(subject: string, date: string, time: string)
    ensures forall i :: 0 <= i < 13 ==>
      DefaultVariables()[i].key == TemplatePreview.Replacements(subject, date, time)[i].0
  {
    DefaultKeysFrom(subject, date, time, 0, 5);
    DefaultKeysFrom(subject, date, time, 5, 9);
    DefaultKeysFrom(subject, date, time, 9, 13);
  }

  lemma DefaultKeysFrom(subject: string, date: string, time: string, lo: nat, hi: nat)
    requires (lo, hi) in {(0, 5), (5, 9), (9, 13)}
    ensures forall i :: lo <= i < hi ==>
      DefaultVariables()[i].key == TemplatePreview.Replacements(subject, date, time)[i].0
  {
  }

  /** The key is written `category.field`: the category, with no '.' in it, then a '.'. */
  predicate KeyOfCategory(key: string, category: string)
  {
    && |category| < |key| && key[|category|] == '.'
    && forall k :: 0 <= k < |category| ==> key[k] == category[k] != '.'
  }

  /** Each default entry's key is its category followed by a '.'. */
  lemma DefaultCategoriesArePrefixes()
    ensures forall v :: v in DefaultVariables() ==> KeyOfCategory(v.key, v.category)
  {
    CategoriesOfUserAndReset();
    CategoriesOfTheRest();
  }

  lemma CategoriesOfUserAndReset()
    ensures KeyOfCategory("user.fullname", "user")
    ensures KeyOfCategory("user.email", "user")
    ensures KeyOfCategory("user.username", "user")
    ensures KeyOfCategory("reset.link", "reset")
    ensures KeyOfCategory("reset.token", "reset")
    ensures KeyOfCategory("reset.expires_at", "reset")
  {
  }

  lemma CategoriesOfTheRest()
    ensures KeyOfCategory("system.site_name", "system")
    ensures KeyOfCategory("system.support_email", "system")
    ensures KeyOfCategory("email.subject", "email")
    ensures KeyOfCategory("message.title", "message")
    ensures KeyOfCategory("message.content", "message")
    ensures KeyOfCategory("date.current", "date")
    ensures KeyOfCategory("time.current", "time")
  {
  }

  /** Each default entry's category is what `key.split('.')[0]` gives. */
  lemma DefaultCategoriesSplit()
    ensures forall v :: v in DefaultVariables() ==> Text.Split(v.key, '.')[0] == v.category
  {
    DefaultCategoriesArePrefixes();
    forall v | v in DefaultVariables() ensures Text.Split(v.key, '.')[0] == v.category {
      KeyCategory(v.key, v.category);
    }
  }

  /** The category of such a key is the key's first part when split at '.'. */
  lemma KeyCategory(key: string, category: string)
    requires KeyOfCategory(key, category)
    ensures Text.Split(key, '.')[0] == category
  {
    var n := |category|;
    assert key[..n] == category;
    assert key == category + ['.'] + key[n + 1..];
    Text.SplitFirstPart(category, '.', key[n + 1..]);
  }

  /** The keys that get a `(limit)` companion. */
  const TextVariables: seq<string> :=
    ["user.fullname", "user.email", "system.site_name", "message.content", "message.title"]

  /** The companion entry of a text variable. */
  function Limited(v: Variable): (w: Variable)
    ensures w.category == v.category
    ensures w.key == v.key + "(limit)"
    ensures w.description == v.description + " (com limite de caracteres)"
    ensures w.example == v.example + " → " + Text.Take(v.example, 10) + "..."
    ensures w.usage == TemplatePreview.Placeholder(v.key + "(30)")
  {
    Variable(v.category, v.key + "(limit)", v.description + " (com limite de caracteres)",
             v.example + " → " + Text.Take(v.example, 10) + "...", "{{" + v.key + "(30)}}")
  }

  /** What one input entry contributes: itself, then its companion if it is a text variable. */
  function Contribution(v: Variable): seq<Variable>
  {
    if v.key in TextVariables then [v, Limited(v)] else [v]
  }

  /** The enhanced catalog, entry by entry in input order. */
  function Enhanced(base: seq<Variable>): seq<Variable>
  {
    if base == [] then [] else Enhanced(base[..|base| - 1]) + Contribution(base[|base| - 1])
  }

  /** How many input entries are text variables. */
  function TextCount(base: seq<Variable>): (n: nat)
    ensures n <= |base|
  {
    if base == [] then 0
    else TextCount(base[..|base| - 1]) + (if base[|base| - 1].key in TextVariables then 1 else 0)
  }

  /** `enhanceVariablesWithDelimiters`: the `forEach` that pushes each entry and its companion. */
  method EnhanceVariables(base: seq<Variable>) returns (enhanced: seq<Variable>)
    ensures enhanced == Enhanced(base)
  {
    enhanced := [];
    var i := 0;
    while i < |base|
      invariant 0 <= i <= |base|
      invariant enhanced == Enhanced(base[..i])
    {
      enhanced := enhanced + [base[i]];
      if base[i].key in TextVariables {
        enhanced := enhanced + [Limited(base[i])];
      }
      assert base[..i + 1][..i] == base[..i];
      i := i + 1;
    }
    assert base[..i] == base;
  }

  /** The output has one entry per input entry plus one per text variable. */
  lemma {:induction false} EnhancedLength(base: seq<Variable>)
    ensures |Enhanced(base)| == |base| + TextCount(base)
  {
    if base != [] {
      EnhancedLength(base[..|base| - 1]);
    }
  }

  /** Input entry `i` sits at position `i + TextCount(base[..i])`, in input order, and a text
      variable's companion immediately follows it. */
  lemma {:induction false} EnhancedPositions(base: seq<Variable>, i: nat)
    requires i < |base|
    ensures var p := i + TextCount(base[..i]);
            && p < |Enhanced(base)| && Enhanced(base)[p] == base[i]
            && (base[i].key in TextVariables ==> p + 1 < |Enhanced(base)| && Enhanced(base)[p + 1] == Limited(base[i]))
    decreases |base|
  {
    var n := |base| - 1;
    var init := base[..n];
    EnhancedLength(init);
    if i < n {
      assert init[..i] == base[..i];
      EnhancedPositions(init, i);
    } else {
      assert base[..i] == init;
    }
  }

  /** Each companion's usage is a placeholder the preview does not know, so the preview shows
      it as written. */
  lemma CompanionShownAsWritten(v: Variable, subject: string, date: string, time: string)
    requires TemplatePreview.BraceFree(v.key)
    ensures TemplatePreview.Preview(Limited(v).usage, subject, date, time) == Limited(v).usage
  {
    var key := v.key + "(30)";
    assert TemplatePreview.BraceFree(key);
    var table := TemplatePreview.Replacements(subject, date, time);
    TemplatePreview.ReplacementKeys(subject, date, time);
    forall i | 0 <= i < |table| ensures table[i].0 != key {
      assert key[|key| - 1] == ')';
    }
    TemplatePreview.ChainKeepsUnknown(key, table);
  }

  /** The server's reply to the variables request. */
  datatype VariablesReply = VariablesReply(success: bool, variables: Option<seq<Variable>>)

  /** The server's reply to a status toggle. */
  datatype ToggleReply = ToggleReply(success: bool, template: Template)

  /** `templates.map(t => t.id === id ? replacement : t)`. */
  function ReplaceById(templates: seq<Template>, id: string, replacement: Template): (r: seq<Template>)
    ensures |r| == |templates|
    ensures forall i :: 0 <= i < |r| ==> r[i] == if templates[i].id == id then replacement else templates[i]
  {
    seq(|templates|, i requires 0 <= i < |templates| => if templates[i].id == id then replacement else templates[i])
  }

  /** Replacing an id that is not in the list changes nothing; replacing twice with the same
      copy is the same as once when the copy keeps the id. */
  lemma ReplaceByIdProperties(templates: seq<Template>, id: string, replacement: Template)
    ensures (forall i :: 0 <= i < |templates| ==> templates[i].id != id) ==> ReplaceById(templates, id, replacement) == templates
    ensures replacement.id == id ==>
      ReplaceById(ReplaceById(templates, id, replacement), id, replacement) == ReplaceById(templates, id, replacement)
  {
  }

  /** A template matches when its lower-cased name or subject contains the lower-cased term. */
  predicate Matches(t: Template, term: string, lower: string -> string)
  {
    Text.Contains(lower(t.name), lower(term)) || Text.Contains(lower(t.subject), lower(term))
  }

  function FilteredTemplates(templates: seq<Template>, term: string, lower: string -> string): (r: seq<Template>)
    ensures forall i :: 0 <= i < |r| ==> r[i] in templates && Matches(r[i], term, lower)
    ensures forall i :: 0 <= i < |templates| && Matches(templates[i], term, lower) ==> templates[i] in r
  {
    Paging.Filter(templates, t => Matches(t, term, lower))
  }

  /** The page's state. */
  class TemplatesPage {
    var templates: seq<Template>
    var variables: seq<Variable>
    const list: Paging.ListState

    ghost predicate Valid()
      reads this, list
    {
      list.Valid()
    }

    constructor ()
      ensures Valid() && fresh(list)
      ensures templates == [] && variables == [] && list.currentPage == 1 && list.searchTerm == ""
    {
      templates, variables := [], [];
      list := new Paging.ListState();
    }

    /** `loadVariables`: a successful reply with variables is enhanced; an exception falls back
        to the enhanced default catalog; a reply without success or variables changes nothing. */
    method LoadVariables(reply: Outcome<VariablesReply>)
      modifies this
      ensures reply.Success? && reply.value.success && reply.value.variables.Some? ==>
        variables == Enhanced(reply.value.variables.value)
      ensures reply.Failure? ==> variables == Enhanced(DefaultVariables())
      ensures reply.Success? && !(reply.value.success && reply.value.variables.Some?) ==>
        variables == old(variables)
      ensures templates == old(templates)
    {
      match reply
      case Success(r) =>
        if r.success && r.variables.Some? {
          variables := EnhanceVariables(r.variables.value);
        }
      case Failure(_, _) =>
        variables := EnhanceVariables(DefaultVariables());
    }

    /** `toggleTemplate`: on success the template with that id is replaced by the server's
        copy; on a failed reply or an exception the list is unchanged. */
    method ToggleTemplate(id: string, reply: Outcome<ToggleReply>)
      modifies this
      ensures reply.Success? && reply.value.success ==>
        templates == ReplaceById(old(templates), id, reply.value.template)
      ensures !(reply.Success? && reply.value.success) ==> templates == old(templates)
      ensures variables == old(variables)
    {
      if reply.Success? && reply.value.success {
        templates := ReplaceById(templates, id, reply.value.template);
      }
    }

    /** The search box; the effect on `[searchTerm]` goes back to page 1. */
    method SetSearch(term: string)
      requires Valid()
      modifies list
      ensures Valid()
      ensures list.searchTerm == term && list.currentPage == 1 && list.itemsPerPage == old(list.itemsPerPage)
    {
      list.SetSearch(term);
    }

    method GoToPage(page: int, lower: string -> string)
      requires Valid()
      modifies list
      ensures Valid()
      ensures list.currentPage == Paging.GoToPage(page, TotalPages(lower))
    {
      list.GoTo(page, TotalPages(lower));
    }

    function TotalPages(lower: string -> string): nat
      requires Valid()
      reads this, list
    {
      Paging.TotalPages(|FilteredTemplates(templates, list.searchTerm, lower)|, list.itemsPerPage)
    }

    /** The rows of the current page. */
    function CurrentTemplates(lower: string -> string): (rows: seq<Template>)
      requires Valid()
      reads this, list
      ensures |rows| <= list.itemsPerPage
      ensures forall i :: 0 <= i < |rows| ==> rows[i] in templates && Matches(rows[i], list.searchTerm, lower)
    {
      Paging.PageRows(FilteredTemplates(templates, list.searchTerm, lower), list.currentPage, list.itemsPerPage)
    }
  }
}
