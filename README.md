# OxyForgotPassword admin front-end, modelled in Dafny

OxyForgotPassword is a React administration front-end for a password-reset service that
serves several Moodle environments. An administrator picks environments and sends
password-reset e-mails to all of them at once. A user follows a reset link, has the token
checked, and picks a new password. Around that flow sit list pages for audit logs, users,
web services and e-mail templates, a template preview, an export dialog, and the session
and routing logic that guards the admin area.

This project models the rules inside those handlers and helpers, one Dafny module per
source file:

- the reset flow pages (`EmailSend`, `EmailSendSimple`, `ResetPassword`,
  `ResetPasswordForm`), with the shared environment lists and per-environment fan-out in
  `Environments`;
- the template preview chain (`TemplatePreview`, `TemplateViewModal`,
  `TemplatePreviewModal`) and the variable catalog (`Templates`, `VariablesModal`);
- the list machinery shared by the admin pages (`Paging`), used by `Auditing`, `Users`,
  `WebServices`, `Templates` and `Dashboard`;
- the UI widgets with logic in them (`TransferList`, `SearchableSelect`, `ExportModal`,
  `DatePicker`);
- the modal forms (`WebServiceModal`, `UserModal`, `AuditingViewModal`);
- translation and preferences (`I18n`), `Breadcrumbs`, `EmailEnvironments`, the route guard
  (`Route`), the session hook (`Auth`) and the HTTP client's interceptors (`Api`).

Shared modules:

- `Remote` models every remote call as an `Outcome`. It is either `Success(value)` or
  `Failure(serverMessage, message)`. An empty string stands for a missing message.
  `OrElse` is JavaScript's `a || b` on strings.
- `WebStorage` models `localStorage` and `sessionStorage` as a class holding two
  `map<string, string>` fields.
- `Text` holds the string operations: substring search, global and first-only replacement,
  split and join, padding, number printing and ordering.

Code that updates React state step by step is modelled as a class whose methods update
fields (`loading`, `emailSent`, `tokenValid`, the environment lists, the toasts shown).
Loops in the source are methods with `while` loops:

- the reset fan-out;
- breadcrumb generation;
- category grouping;
- the variable enhancer;
- the calendar grid;
- export row formatting;
- translation lookup.

Each such method is proved equal to a function, and the properties are lemmas about that
function. Lower-casing, upper-casing, locale date formatting and translation tables are
function parameters.

When sending reset e-mails, `EmailSend.tsx` asks for at least one of e-mail and username
(the comment at line 73 of `src/pages/admin/EmailSend.tsx`). Lines 73-76 reject only the case
where both are empty, and a request with both filled sends both.
`EmailSend.EmailSendPage.HandleSendEmail` does the same.

The `EmailSend` page builds its environment items from `response.urls`, read as objects
with a `url` field. The model receives those URLs as a sequence of strings.

## Model

| member | source | states |
|---|---|---|
| Utils.TruncateText | src/lib/utils.ts:7-11 | text no longer than the limit is returned unchanged; longer text becomes its first `maxLength` characters followed by "...", so the result never exceeds `maxLength + 3` |
| Utils.TruncateTextIdempotent | src/lib/utils.ts:7-11 | truncating a truncated text again changes nothing |
| TemplatePreview.Placeholder | src/components/modals/TemplateViewModal.tsx:48-60 | a placeholder is the key wrapped in `{{` and `}}`, four characters longer than the key |
| TemplatePreview.Replacements | src/components/modals/TemplateViewModal.tsx:47-60 | the chain has exactly 13 replacements, and the ninth puts the template subject in place of `{{email.subject}}` |
| TemplatePreview.ChainAbsent | src/components/modals/TemplateViewModal.tsx:47-60 | content containing none of the 13 placeholders is returned unchanged |
| TemplatePreview.ReplaceFills | src/components/modals/TemplateViewModal.tsx:48-60 | one global literal replacement of `{{key}}` fills exactly the placeholder pieces with that key and nothing else |
| TemplatePreview.ChainResolves | src/components/modals/TemplateViewModal.tsx:47-60 | the ordered replacement chain over text equals resolving its placeholders one key at a time, in chain order |
| TemplatePreview.ResolveRemovesKeys | src/components/modals/TemplateViewModal.tsx:47-60 | after the chain with literal values, no placeholder of a replaced key remains |
| TemplatePreview.ResolveKeepsUnknown | src/components/modals/TemplateViewModal.tsx:47-60 | text whose placeholders name no key of the chain passes through unchanged |
| TemplatePreview.ChainAppend | src/components/modals/TemplateViewModal.tsx:47-60 | running a chain of replacements is running its first part, then its second part |
| TemplatePreview.ChainIdempotent | src/components/modals/TemplateViewModal.tsx:47-60 | with brace-free values, applying the chain to its own output changes nothing |
| TemplatePreview.PreviewIdempotent | src/components/modals/TemplateViewModal.tsx:47-60 | for content made of brace-free text and placeholders, with brace-free subject, date and time, previewing a preview changes nothing |
| TemplatePreview.ModifierShownAsWritten | src/components/modals/TemplateViewModal.tsx:48-60 | a modifier form such as `{{user.fullname(30)}}` is shown verbatim, whatever the subject, date and time |
| TemplatePreview.ChainKeepsUnknown | src/components/modals/TemplateViewModal.tsx:48-60 | a placeholder whose key is not in the chain is left verbatim |
| TemplatePreview.UserEmailPreview | src/components/modals/TemplateViewModal.tsx:50 | `{{user.email}}` becomes the fixed sample address |
| TemplatePreview.SubjectPlaceholderPreview | src/components/modals/TemplateViewModal.tsx:55-60 | `{{email.subject}}` becomes the subject, with only the replacements that come after it in the chain applied |
| TemplatePreview.SubjectLaterKeyExpanded | src/components/modals/TemplateViewModal.tsx:55-60 | a later-key placeholder inside the subject, `{{date.current}}`, is substituted |
| TemplatePreview.SubjectEarlierKeyRaw | src/components/modals/TemplateViewModal.tsx:47-60 | an earlier-key placeholder inside the subject, `{{user.email}}`, stays literal |
| TemplatePreview.PreviewNotIdempotent | src/components/modals/TemplateViewModal.tsx:47-60 | a subject holding an earlier-key placeholder makes a second preview differ from the first |
| TemplateViewModal.StatusText | src/components/modals/TemplateViewModal.tsx:33-35 | the status reads "Ativo" exactly when the template is active, and "Inativo" otherwise |
| TemplateViewModal.TypeText | src/components/modals/TemplateViewModal.tsx:43-45 | 'html' shows as "HTML", any other type as "Texto" |
| TemplateViewModal.Render | src/components/modals/TemplateViewModal.tsx:17-60 | the modal renders exactly when open with a template; only the content is previewed, and the subject is shown raw |
| TemplateViewModal.SubjectShownRaw | src/components/modals/TemplateViewModal.tsx:47-60 | a subject holding a placeholder is shown raw, although the preview would substitute it |
| TemplatePreviewModal.Render | src/components/modals/TemplatePreviewModal.tsx:21-36 | the modal renders exactly when open; the preview is the 13-replacement chain of the draft content, and the subject is shown raw |
| TemplatePreviewModal.PlainDraftUnchanged | src/components/modals/TemplatePreviewModal.tsx:23-36 | a draft without braces previews as itself |
| Templates.DefaultVariables | src/pages/admin/Templates.tsx:65-79 | the default catalog has 13 entries, each used as its own placeholder `{{key}}` |
| Templates.DefaultCategoriesArePrefixes | src/pages/admin/Templates.tsx:65-79 | every default entry's key is its category, which holds no '.', followed by a '.' |
| Templates.DefaultCategoriesSplit | src/pages/admin/Templates.tsx:65-79 | every default entry's category is the key's first part when split at '.' |
| Templates.KeyCategory | src/pages/admin/Templates.tsx:65-79 | a key written `category.field` with a '.'-free category splits at '.' to that category first |
| Templates.DefaultKeysArePreviewKeys | src/pages/admin/Templates.tsx:65-79 | the 13 default keys are exactly the 13 keys the preview chain replaces, in the same order |
| Templates.Limited | src/pages/admin/Templates.tsx:89-97 | the companion entry has key `key(limit)`, usage `{{key(30)}}` and example `example → first10(example)...` |
| Templates.EnhanceVariables | src/pages/admin/Templates.tsx:81-102 | the loop computes the enhanced catalog |
| Templates.EnhancedLength | src/pages/admin/Templates.tsx:81-102 | the enhanced catalog has one more entry for every input key in the text list |
| Templates.EnhancedPositions | src/pages/admin/Templates.tsx:84-97 | every input entry keeps its relative order, and a text-list entry is immediately followed by its companion |
| Templates.CompanionShownAsWritten | src/pages/admin/Templates.tsx:89-97 | a companion's `{{key(30)}}` usage passes through the preview verbatim |
| Templates.ReplaceById | src/pages/admin/Templates.tsx:205-210 | only templates with the matching id are replaced by the server's copy; the others keep their place |
| Templates.ReplaceByIdProperties | src/pages/admin/Templates.tsx:205-210 | an unknown id changes nothing, and replacing twice is replacing once |
| Templates.FilteredTemplates | src/pages/admin/Templates.tsx:188-191 | exactly the templates whose lower-cased name or subject contains the lower-cased term are kept |
| Templates.TemplatesPage.LoadVariables | src/pages/admin/Templates.tsx:118-132 | a successful reply with variables gives its enhanced catalog; a failure gives the enhanced default catalog; a refusal changes nothing |
| Templates.TemplatesPage.ToggleTemplate | src/pages/admin/Templates.tsx:203-220 | on success the matching template is replaced by the server's copy; otherwise the list is unchanged |
| Templates.TemplatesPage.SetSearch | src/pages/admin/Templates.tsx:61-63 | a new search term resets the page to 1 |
| Templates.TemplatesPage.GoToPage | src/pages/admin/Templates.tsx:199-201 | the page becomes `max(1, min(page, totalPages))` |
| Templates.TemplatesPage.CurrentTemplates | src/pages/admin/Templates.tsx:194-197 | the page shows at most `itemsPerPage` rows, all of them matching templates |
| VariablesModal.FilteredVariables | src/components/modals/VariablesModal.tsx:30-34 | exactly the variables whose lower-cased key, description or category contains the lower-cased term are kept |
| VariablesModal.EmptySearchKeepsAll | src/components/modals/VariablesModal.tsx:30-34 | an empty search keeps every variable |
| VariablesModal.GroupVariables | src/components/modals/VariablesModal.tsx:36-42 | the reduce loop builds one group per category, in first-appearance order, each equal to that category's variables in list order |
| VariablesModal.CategoriesFacts | src/components/modals/VariablesModal.tsx:36-42 | the categories are distinct, and they are exactly the categories present |
| VariablesModal.GroupMembers | src/components/modals/VariablesModal.tsx:36-42 | every variable lands in the group of its own category, and only there |
| VariablesModal.GroupIsFilter | src/components/modals/VariablesModal.tsx:36-42 | a group is the order-preserving filter of the list by category |
| VariablesModal.GroupsPartition | src/components/modals/VariablesModal.tsx:36-42 | the group sizes add up to the number of filtered variables |
| VariablesModal.CategoryLabel | src/components/modals/VariablesModal.tsx:148-153 | six categories get Portuguese headings; any other category, 'time' included, is shown raw |
| VariablesModal.Modal.HandleInsert | src/components/modals/VariablesModal.tsx:54-57 | the variable's usage string is handed to the callback, and the modal closes |
| AuditingViewModal.StatusText | src/components/modals/AuditingViewModal.tsx:47-58 | success, error and pending get Portuguese labels; any other status passes through |
| AuditingViewModal.CorrectedStatus | src/components/modals/AuditingViewModal.tsx:74-83 | the corrected status is the stored one or 'error', and a stored 'error' stays 'error' |
| AuditingViewModal.CorrectedStatusTwoPhrases | src/components/modals/AuditingViewModal.tsx:74-83 | the status is 'error' exactly when the lower-cased description contains 'user not found' or 'não encontrado' |
| AuditingViewModal.TokenDisplay | src/components/modals/AuditingViewModal.tsx:147 | a present token shows its first 20 characters plus "...", even when shorter; a missing one shows 'Desconhecido' |
| AuditingViewModal.Render | src/components/modals/AuditingViewModal.tsx:147-159 | nothing renders when closed or without a log; the copy button exists exactly when a token is present |
| Auditing.FilteredLogs | src/pages/admin/Auditing.tsx:87-96 | a log is kept exactly when it matches the search and, if a status filter is set, has that status |
| Auditing.EmptyFiltersKeepAll | src/pages/admin/Auditing.tsx:87-96 | empty search and status filters keep every log |
| Auditing.AuditingPage.LoadAuditoria | src/pages/admin/Auditing.tsx:73-85 | a reply sets the logs and the server's total, each missing one read as empty or 0; a failure changes neither |
| Auditing.AuditingPage.ApplySearchParam | src/pages/admin/Auditing.tsx:47-60 | a non-empty `search` query parameter becomes the search term |
| Auditing.AuditingPage.SetSearch | src/pages/admin/Auditing.tsx:66-68 | a new search term resets the page to 1 |
| Auditing.AuditingPage.SetStatusFilter | src/pages/admin/Auditing.tsx:66-68 | a new status filter resets the page to 1 and keeps the search |
| Auditing.AuditingPage.SetItemsPerPage | src/pages/admin/Auditing.tsx:286-289 | a new page size resets the page to 1 |
| Auditing.AuditingPage.GoToPage | src/pages/admin/Auditing.tsx:104-106 | the page is at least 1, and at most `totalPages` whenever there is a page |
| Auditing.AuditingPage.CurrentLogs | src/pages/admin/Auditing.tsx:99-102 | the rows shown are at most one page of locally filtered logs |
| Auditing.AuditingPage.RowStatus | src/pages/admin/Auditing.tsx:222-231 | a row's status is its stored status or 'error' |
| Auditing.AuditingPage.PageLogs | src/pages/admin/Auditing.tsx:87-102 | corrected: the rows are the loaded page's logs that pass the search and status filters, with no second slice |
| Auditing.ServerPageShownEmpty | src/pages/admin/Auditing.tsx:73-102 | when the reply holds at most one page of logs, every page after the first shows no rows, and the server's total still counts that page among the pages |
| Auditing.ServerPageShownInFull | src/pages/admin/Auditing.tsx:73-102 | corrected, every loaded log that passes the filters is shown on whichever page was requested, and on page 1 this is what the page shows as written |
| Auditing.PageWithinTotal | src/pages/admin/Auditing.tsx:98 | a total above `p - 1` full pages gives a page count of at least `p` |
| Users.FilteredUsers | src/pages/admin/Users.tsx:135-138 | exactly the users whose lower-cased name or email contains the lower-cased term are kept |
| Users.IsCurrentUserById | src/pages/admin/Users.tsx:132-134 | being the current user depends only on the id, and nobody is current without a signed-in user |
| Users.UsersPage.LoadUsers | src/pages/admin/Users.tsx:55-65 | a reply sets the list, with a missing list read as empty; a failure keeps the old list |
| Users.UsersPage.SetSearch | src/pages/admin/Users.tsx:52-54 | a new search term resets the page to 1 |
| Users.UsersPage.SetItemsPerPage | src/pages/admin/Users.tsx:184-187 | a new page size resets the page to 1 |
| Users.UsersPage.TotalPages | src/pages/admin/Users.tsx:141 | the page count is the ceiling of filtered rows over page size |
| Users.UsersPage.GoToPage | src/pages/admin/Users.tsx:146-148 | the page becomes `max(1, min(page, totalPages))` |
| Users.UsersPage.CurrentUsers | src/pages/admin/Users.tsx:141-144 | the page shows at most `itemsPerPage` matching users |
| Users.SinglePageReachable | src/pages/admin/Users.tsx:135-148 | when the reply holds at most one page of users, the page count is at most 1 and every page change lands on page 1 |
| WebServices.FilteredServices | src/pages/admin/WebServices.tsx:119-122 | exactly the services whose lower-cased name or URL contains the lower-cased term are kept |
| WebServices.Toggled | src/pages/admin/WebServices.tsx:136-139 | only services with the matching id have `isActive` negated; every other field and service is unchanged |
| WebServices.ToggledTwice | src/pages/admin/WebServices.tsx:136-139 | toggling twice restores the list, and an unknown id changes nothing |
| WebServices.WebServicesPage.LoadWebServices | src/pages/admin/WebServices.tsx:58-70 | a reply sets the list, with a missing list read as empty; a failure keeps the old list |
| WebServices.WebServicesPage.ToggleService | src/pages/admin/WebServices.tsx:134-143 | a successful call toggles the matching service; a failed call leaves the list unchanged |
| WebServices.WebServicesPage.SetSearch | src/pages/admin/WebServices.tsx:51-53 | a new search term resets the page to 1 |
| WebServices.WebServicesPage.SetItemsPerPage | src/pages/admin/WebServices.tsx:195-198 | a new page size resets the page to 1 |
| WebServices.WebServicesPage.TotalPages | src/pages/admin/WebServices.tsx:125 | the page count is the ceiling of filtered rows over page size |
| WebServices.WebServicesPage.GoToPage | src/pages/admin/WebServices.tsx:130-132 | the page becomes `max(1, min(page, totalPages))` |
| WebServices.WebServicesPage.CurrentServices | src/pages/admin/WebServices.tsx:125-128 | the page shows at most `itemsPerPage` matching services |
| WebServices.SinglePageReachable | src/pages/admin/WebServices.tsx:119-132 | when the reply holds at most one page of services, the page count is at most 1 and every page change lands on page 1 |
| Paging.Filter | src/pages/admin/Users.tsx:135-138 | the order-preserving filter keeps exactly the elements that satisfy the predicate |
| Paging.FilterPartition | src/pages/admin/EmailSend.tsx:102-103 | a filter and its complement split a list without loss |
| Paging.Toggle | src/components/UI/TransferList.tsx:56-64 | toggling flips the membership of one id and leaves every other id as it was |
| Paging.ToggleTwice | src/components/UI/TransferList.tsx:56-64 | toggling twice restores the selection |
| Paging.TotalPages | src/pages/admin/Users.tsx:141 | the page count is the least `t` with `count <= t * perPage` |
| Paging.PageRows | src/pages/admin/Users.tsx:142-144 | a page shows at most `perPage` rows, all from the list |
| Paging.RowOnItsPage | src/pages/admin/Users.tsx:141-144 | every row appears on page `i / perPage + 1`, which is a valid page |
| Paging.GoToPage | src/pages/admin/Users.tsx:146-148 | the clamp keeps valid pages, lifts low pages to 1 and lowers high pages to the last page |
| Paging.PageWindowShape | src/pages/admin/Auditing.tsx:463-504 | the window is pages 1..5 near the start, `current-2..current+2` in the middle, and the last five pages near the end |
| Paging.PageWindowBounds | src/pages/admin/Auditing.tsx:463-504 | the window holds at most five pages, each between 1 and `totalPages`, in increasing order |
| Paging.CurrentPageCanBeMissing | src/pages/admin/Auditing.tsx:463-504 | with 4 pages on page 4, the window is [1, 2, 3] and leaves out the current page |
| Paging.FirstPageCanRepeat | src/pages/admin/Auditing.tsx:449-504 | on page 4 of 5 the first-page shortcut shows while the window also starts at 1 |
| Paging.ListState.SetSearch | src/pages/admin/Users.tsx:52-54 | a new search term resets the page to 1 and keeps the page size |
| Paging.ListState.ResetPage | src/pages/admin/Auditing.tsx:66-68 | the page goes back to 1, and the search term and page size stay |
| Paging.ListState.SetItemsPerPage | src/pages/admin/Users.tsx:184-187 | a new page size resets the page to 1 and keeps the search |
| Paging.ListState.GoTo | src/pages/admin/Users.tsx:146-148 | the page becomes the clamped target |
| Dashboard.FormatDateBR | src/pages/admin/Dashboard.tsx:11-16 | the empty date gives '' |
| Dashboard.FormatDateBRIso | src/pages/admin/Dashboard.tsx:11-16 | `y-m-d` with non-empty parts becomes `dd/mm/y`, day and month zero-padded |
| Dashboard.FormatDateBRExtraParts | src/pages/admin/Dashboard.tsx:11-16 | parts after the third are ignored |
| Dashboard.FormatDateBRMalformed | src/pages/admin/Dashboard.tsx:11-16 | input with fewer than three non-empty parts is returned unchanged |
| Dashboard.CountOr | src/pages/admin/Dashboard.tsx:92 | a missing or zero count falls back to the second value |
| Dashboard.ActiveServices | src/pages/admin/Dashboard.tsx:139-141 | exactly the active services are counted |
| Dashboard.SentLogs | src/pages/admin/Dashboard.tsx:144-147 | exactly the logs whose e-mail was sent are counted |
| Dashboard.AuditSearch | src/pages/admin/Dashboard.tsx:192-205 | the search uses the first present field in the order id, email, username, phone, and names that field; with none present there is no search |
| Dashboard.FilteredAuditLogs | src/pages/admin/Dashboard.tsx:217-233 | without a date filter every log is kept; otherwise exactly the logs whose date part equals the filter |
| Dashboard.EmailErrorLogs | src/pages/admin/Dashboard.tsx:240-261 | exactly the 'error' logs whose lower-cased description has one of the e-mail keywords |
| Dashboard.ShownErrors | src/pages/admin/Dashboard.tsx:501 | at most the first five errors are shown |
| Dashboard.OverflowNoteIffHidden | src/pages/admin/Dashboard.tsx:548 | the overflow note appears exactly when some error is not shown |
| Dashboard.DashboardPage.LoadDashboardData | src/pages/admin/Dashboard.tsx:109-167 | stats from the server are used as they are; otherwise each total is computed from the replies that arrived, and then active services never exceed total services |
| Dashboard.DashboardPage.LoadAuditLogs | src/pages/admin/Dashboard.tsx:77-97 | a reply sets the logs and the total; a failure keeps both |
| Dashboard.DashboardPage.LoadWebServicesData | src/pages/admin/Dashboard.tsx:99-107 | a reply sets the services, and the total falls back to the list length; a failure keeps both |
| Dashboard.DashboardPage.GoToAuditPage | src/pages/admin/Dashboard.tsx:169-171 | the audit page is clamped from below only |
| Dashboard.DashboardPage.GoToWebServicesPage | src/pages/admin/Dashboard.tsx:173-175 | the services page is clamped from below only |
| Dashboard.DashboardPage.SetDateFilter | src/pages/admin/Dashboard.tsx:177-181 | a new date filter resets the audit page to 1 |
| Dashboard.DashboardPage.ClearDateFilter | src/pages/admin/Dashboard.tsx:183-186 | clearing the date filter resets the audit page to 1 |
| Dashboard.DashboardPage.AuditTotalPages | src/pages/admin/Dashboard.tsx:236 | the audit page count is the ceiling of date-filtered logs over 5 |
| Dashboard.DashboardPage.WebServicesTotalPages | src/pages/admin/Dashboard.tsx:237 | the services page count is the ceiling of the server total over 5 |
| Dashboard.FallbackActiveAtMostTotal | src/pages/admin/Dashboard.tsx:139-141 | the computed active count never exceeds the total, and equals it exactly when every service is active |
| TransferList.FilteredItems | src/components/UI/TransferList.tsx:45-53 | exactly the items whose lower-cased label or value contains the lower-cased search are kept |
| TransferList.ItemsWithIds | src/components/UI/TransferList.tsx:102-119 | exactly the side's items whose ids are selected, in list order, including ones hidden by the search |
| TransferList.Side.Select | src/components/UI/TransferList.tsx:56-73 | selecting toggles the id and reports the selected items |
| TransferList.Side.Click | src/components/UI/TransferList.tsx:201 | clicking a disabled item changes nothing; any other click toggles it |
| TransferList.Side.SelectAll | src/components/UI/TransferList.tsx:76-87 | the selection becomes exactly the filtered ids, disabled items included |
| TransferList.Side.DeselectAll | src/components/UI/TransferList.tsx:89-99 | the selection is emptied |
| TransferList.Side.Move | src/components/UI/TransferList.tsx:102-119 | the selected items move and the selection clears; nothing happens when none is selected |
| TransferList.Side.MoveAll | src/components/UI/TransferList.tsx:122-137 | exactly the filtered items move and the selection clears; nothing happens when the filtered list is empty |
| TransferList.Transfer.MoveRight | src/components/UI/TransferList.tsx:102-110 | the left side's selected items go right |
| TransferList.Transfer.MoveLeft | src/components/UI/TransferList.tsx:112-120 | the right side's selected items go left |
| TransferList.Transfer.MoveAllRight | src/components/UI/TransferList.tsx:122-129 | the left side's filtered items go right |
| TransferList.Transfer.MoveAllLeft | src/components/UI/TransferList.tsx:131-137 | the right side's filtered items go left |
| TransferList.SelectAllThenMove | src/components/UI/TransferList.tsx:76-119 | after select-all, a move carries every filtered item |
| SearchableSelect.FilteredOptions | src/components/UI/SearchableSelect.tsx:38-44 | options with value '' are dropped, and exactly the options whose lower-cased label contains the search are kept; values are not searched |
| SearchableSelect.FindOption | src/components/UI/SearchableSelect.tsx:60 | the first option with the given value, and none exactly when no option has it |
| SearchableSelect.ButtonText | src/components/UI/SearchableSelect.tsx:95-101 | loading shows "Carregando..."; otherwise the chosen option's label, or the placeholder |
| SearchableSelect.ShownOptions | src/components/UI/SearchableSelect.tsx:144 | at most 9 options are rendered, a prefix of the filtered ones |
| SearchableSelect.FooterWording | src/components/UI/SearchableSelect.tsx:163-166 | the footer reads "Mostrando 9 de N" exactly when N > 9, and uses singular or plural by N |
| SearchableSelect.Select.ToggleOpen | src/components/UI/SearchableSelect.tsx:85 | the list opens or closes unless the select is disabled |
| SearchableSelect.Select.HandleSelect | src/components/UI/SearchableSelect.tsx:62-66 | the chosen value is emitted, the list closes and the search clears |
| SearchableSelect.Select.HandleClose | src/components/UI/SearchableSelect.tsx:68-71 | the list closes and the search clears |
| SearchableSelect.Select.Rendered | src/components/UI/SearchableSelect.tsx:144 | nothing is listed when closed or loading, otherwise at most 9 matching options |
| ExportModal.Lookup | src/components/modals/ExportModal.tsx:113 | a row's value for a key, missing when the row lacks the key |
| ExportModal.GetFieldType | src/components/modals/ExportModal.tsx:78-83 | booleans are boolean fields, numbers number fields, strings starting `dddd-dd-dd` date fields, everything else text |
| ExportModal.DateWithTime | src/components/modals/ExportModal.tsx:81 | a timestamp with a time part is a date, a Brazilian-order date is not |
| ExportModal.GetFieldLabel | src/components/modals/ExportModal.tsx:60-76 | the label table entry when there is one, otherwise the key with its first character upper-cased |
| ExportModal.Fields | src/components/modals/ExportModal.tsx:38-46 | one field per key of the first row, in order, required exactly for id and created_at |
| ExportModal.DefaultSelection | src/components/modals/ExportModal.tsx:51-55 | the default selection is the required keys plus username, email, description and status where present |
| ExportModal.RequiredFieldKeys | src/components/modals/ExportModal.tsx:101 | exactly the required keys |
| ExportModal.FindField | src/components/modals/ExportModal.tsx:86 | a field with the given key, and none exactly when no field has it |
| ExportModal.FormatCellAsWritten | src/components/modals/ExportModal.tsx:113-136 | a falsy value becomes '' before any formatting, outside the timestamp, status, role and type fields |
| ExportModal.FalseExportsEmpty | src/components/modals/ExportModal.tsx:113-125 | as written, `false` exports as '' and never as 'Não' |
| ExportModal.FormatCell | src/components/modals/ExportModal.tsx:113-136 | the corrected cell formatting, in which a boolean is formatted before the `|| ''` fallback |
| ExportModal.BooleansExportAsSimNao | src/components/modals/ExportModal.tsx:124-125 | corrected, a boolean exports as 'Sim' or 'Não' |
| ExportModal.FormatCellAgreesOnTruthy | src/components/modals/ExportModal.tsx:113-136 | the correction changes nothing for truthy values |
| ExportModal.RowCellsContent | src/components/modals/ExportModal.tsx:109-141 | each field's cell sits under its header label; with the export's own rule it holds `FormatCellAsWritten` of `row[field]`, with the corrected rule `FormatCell` of it |
| ExportModal.FalseRowCell | src/components/modals/ExportModal.tsx:109-141 | a record whose `useToken` is `false` gets an empty 'Usa Token' cell as written, and 'Não' when corrected |
| ExportModal.RowCellsKeys | src/components/modals/ExportModal.tsx:109-141 | a row has exactly one cell per selected field's label, whichever cell rule is used |
| ExportModal.FormatRow | src/components/modals/ExportModal.tsx:109-141 | the `forEach` loop builds exactly the row of `RowCells` for the cell rule it is given; `AsWritten` is the export's own loop |
| ExportModal.ColumnWidth | src/components/modals/ExportModal.tsx:148-151 | column widths lie between 17 and 50, and equal the label length plus 2 in the middle range |
| ExportModal.Modal.Refresh | src/components/modals/ExportModal.tsx:37-58 | fields and default selection are recomputed only when the modal is open with data, and the alert always clears |
| ExportModal.Modal.HandleFieldToggle | src/components/modals/ExportModal.tsx:85-94 | a required field never changes; any other key's membership is toggled |
| ExportModal.Modal.HandleSelectAll | src/components/modals/ExportModal.tsx:96-98 | every key is selected |
| ExportModal.Modal.HandleDeselectAll | src/components/modals/ExportModal.tsx:100-102 | exactly the required keys stay selected |
| ExportModal.Modal.HandleExport | src/components/modals/ExportModal.tsx:163-198 | an empty selection is refused with an error; otherwise xlsx goes to the workbook writer and csv to the callback, and the alert reports the outcome |
| ExportModal.RequiredFieldsStay | src/components/modals/ExportModal.tsx:85-94 | once every required field is selected, no toggle unselects one |
| DatePicker.FormatDateForDisplay | src/components/UI/DatePicker.tsx:29-35 | the empty date gives '' |
| DatePicker.DisplayThreeParts | src/components/UI/DatePicker.tsx:29-35 | three `-` parts become `pad2(d)/pad2(m)/y`, as the dashboard formatter does for non-empty parts |
| DatePicker.EmptyPartsDiffer | src/components/UI/DatePicker.tsx:29-35 | '--' displays as '00/00/' here, while the dashboard formatter keeps '--' |
| DatePicker.DayString | src/components/UI/DatePicker.tsx:104-107 | a day string starts with the year |
| DatePicker.DayStringOrder | src/components/UI/DatePicker.tsx:104-112 | for four-digit years, string order on day strings is calendar order |
| DatePicker.DisabledByDate | src/components/UI/DatePicker.tsx:112 | a day is disabled exactly when it is before the minimum or after the maximum date |
| DatePicker.CellOf | src/components/UI/DatePicker.tsx:104-112 | each cell carries its day string, month, today, selected and disabled flags |
| DatePicker.GenerateCalendarDays | src/components/UI/DatePicker.tsx:88-151 | the grid always has exactly 42 cells, the i-th for the i-th day shown |
| DatePicker.Picker.constructor | src/components/UI/DatePicker.tsx:23-54 | the picker starts closed, showing the given value |
| DatePicker.Picker.SyncValue | src/components/UI/DatePicker.tsx:44-54 | a new value sets the selection and its display form |
| DatePicker.Picker.HandleDateSelect | src/components/UI/DatePicker.tsx:69-77 | the date is selected, displayed formatted, emitted, and the picker closes |
| DatePicker.Picker.ClickDay | src/components/UI/DatePicker.tsx:127-132 | clicking a disabled day does nothing; any other day is selected |
| DatePicker.Picker.HandleClear | src/components/UI/DatePicker.tsx:79-84 | selection and display become '' and '' is emitted |
| DatePicker.Picker.ClickOutside | src/components/UI/DatePicker.tsx:56-66 | the picker closes and keeps its selection |
| WebServiceModal.InitialForm | src/components/modals/WebServiceModal.tsx:38-61 | editing copies the service with the password defaulting to ''; a new form gets 'https', the default route and empty fields |
| WebServiceModal.WithIfSet | src/components/modals/WebServiceModal.tsx:77-79 | a field is added only when non-empty |
| WebServiceModal.CreatePayload | src/components/modals/WebServiceModal.tsx:83-90 | the create payload never holds moodlePassword, and holds moodleUser and route only when non-empty |
| WebServiceModal.UpdatePayload | src/components/modals/WebServiceModal.tsx:72-80 | the update payload holds moodlePassword exactly when it is non-empty |
| WebServiceModal.PayloadsDifferOnlyInPassword | src/components/modals/WebServiceModal.tsx:72-90 | the create payload is the update payload without moodlePassword |
| WebServiceModal.Modal.Reset | src/components/modals/WebServiceModal.tsx:38-61 | opening the modal resets the form to the initial form and clears the alert |
| WebServiceModal.Modal.HandleSubmit | src/components/modals/WebServiceModal.tsx:64-103 | the update or create payload is sent; the modal closes exactly on success, and a failure shows the message or the default text |
| WebServiceModal.Modal.HandleRouteEditToggle | src/components/modals/WebServiceModal.tsx:105-107 | route editing is negated and nothing else changes |
| UserModal.InitialForm | src/components/modals/UserModal.tsx:36-52 | editing copies name, email and role with an empty password; a new form gets role 'user' |
| UserModal.UpdatePayload | src/components/modals/UserModal.tsx:61-71 | the password is sent exactly when its trim is non-empty, untrimmed |
| UserModal.CreatePayload | src/components/modals/UserModal.tsx:83-88 | the create payload has exactly name, email, password and role |
| UserModal.IsCurrentUserCases | src/components/modals/UserModal.tsx:34 | the current-user test is strict equality of ids: a numeric id never equals a text id, and two missing ids are equal |
| UserModal.Modal.Reset | src/components/modals/UserModal.tsx:36-52 | opening the modal resets the form and clears the alert |
| UserModal.Modal.HandleSubmit | src/components/modals/UserModal.tsx:54-103 | creating with a blank password is refused before saving; otherwise the payload is sent, and the modal closes exactly on success |
| UserModal.SentPasswordNotBlank | src/components/modals/UserModal.tsx:61-88 | a password that is sent is never blank |
| I18n.Walk | src/hooks/useI18n.ts:59-68 | the walk ends at the entry for no segments, and finds nothing once a segment is missing |
| I18n.LookUp | src/hooks/useI18n.ts:58-76 | the segment loop computes the translation |
| I18n.WalkStopsAtMissing | src/hooks/useI18n.ts:62-67 | a missing segment gives nothing, whatever follows |
| I18n.TranslateCases | src/hooks/useI18n.ts:58-76 | a missing or non-phrase entry gives the key back; a phrase gets only its first `{systemName}` filled |
| I18n.OnlyFirstSlotFilled | src/hooks/useI18n.ts:70-73 | a second `{systemName}` stays literal |
| I18n.ParseLanguage | src/hooks/useI18n.ts:30-32 | a stored language is accepted exactly when it is 'pt-BR' or 'en' |
| I18n.ParseTheme | src/hooks/useI18n.ts:34-36 | a stored theme is accepted exactly when it is 'light' or 'dark' |
| I18n.StoredPreferenceRoundTrip | src/hooks/useI18n.ts:26-56 | a saved language or theme is read back as itself |
| I18n.Preferences.constructor | src/hooks/useI18n.ts:22-23 | defaults are pt-BR and light |
| I18n.Preferences.LoadSaved | src/hooks/useI18n.ts:26-37 | valid stored preferences replace the current ones; invalid ones are ignored |
| I18n.Preferences.SetLanguage | src/hooks/useI18n.ts:48-51 | the language is set and persisted |
| I18n.Preferences.SetTheme | src/hooks/useI18n.ts:53-56 | the theme is set and persisted |
| I18n.Preferences.T | src/hooks/useI18n.ts:58-76 | a key that leads nowhere in the current language's table is returned as it is |
| Breadcrumbs.Segments | src/components/UI/Breadcrumbs.tsx:23 | segments are non-empty and contain no '/' |
| Breadcrumbs.CrumbLabel | src/components/UI/Breadcrumbs.tsx:56 | the route label when there is one, otherwise the segment capitalised |
| Breadcrumbs.Trail | src/components/UI/Breadcrumbs.tsx:22-63 | Home first, then one crumb per segment after a skipped leading 'admin' |
| Breadcrumbs.GenerateBreadcrumbs | src/components/UI/Breadcrumbs.tsx:22-63 | the `forEach` loop builds exactly the trail of the path's segments |
| Breadcrumbs.TrailLinks | src/components/UI/Breadcrumbs.tsx:47-58 | only the last crumb is current and has no link; the others link to the cumulative path, a skipped 'admin' included |
| Breadcrumbs.Displayed | src/components/UI/Breadcrumbs.tsx:65-67 | explicit items override the generated trail |
| Breadcrumbs.ShownIffPastAdmin | src/components/UI/Breadcrumbs.tsx:65-69 | the trail shows exactly when the path has a segment other than a lone 'admin' |
| Breadcrumbs.SegmentsOfPath | src/components/UI/Breadcrumbs.tsx:23 | splitting a joined path gives its segments back |
| Breadcrumbs.AdminOnlySkippedFirst | src/components/UI/Breadcrumbs.tsx:51-53 | a leading 'admin' is skipped but still in the links; 'admin' elsewhere gets a crumb |
| EmailEnvironments.NormalizeUrl | src/pages/admin/EmailEnvironments.tsx:69 | a URL starting with 'http' is kept; any other gets 'https://' in front, so the result always starts with 'http' |
| EmailEnvironments.NormalizeIdempotent | src/pages/admin/EmailEnvironments.tsx:69 | normalising twice is normalising once |
| EmailEnvironments.EnvironmentsPage.LoadMoodleUrls | src/pages/admin/EmailEnvironments.tsx:16-28 | a reply sets the URLs, and the empty notice shows exactly when there are none; a failure adds an error toast |
| EmailEnvironments.EnvironmentsPage.OpenEnvironment | src/pages/admin/EmailEnvironments.tsx:98 | the opened URL is the normalised URL |
| Route.Decide | src/routes/Route.tsx:17-67 | the spinner while loading, the login redirect when unauthenticated, a denial exactly when a required role is missing, and the children exactly when every check passes |
| Route.NoProfileNoRestrictedRoute | src/routes/Route.tsx:34-65 | a signed-in session without a user never reaches a role-restricted route |
| Api.RequestToken | src/lib/api.ts:28-34 | the session token when present, otherwise the local one, otherwise none |
| Api.ErrorMessage | src/lib/api.ts:39-56 | the classification order is: timeout, 401, server message, network error, then the error's own message or the default |
| Api.ClassificationOrder | src/lib/api.ts:39-56 | a timeout wins over a 401, a 401 over a server message |
| Api.BaseApi.InterceptRequest | src/lib/api.ts:28-34 | the Bearer header is set exactly when a token is found |
| Api.BaseApi.InterceptError | src/lib/api.ts:37-56 | a 401 that is not a timeout removes both auth tokens but not remember-me |
| Api.ExpiredSessionSendsNoToken | src/lib/api.ts:43-47 | after a 401, no token is sent |
| Auth.StoredToken | src/hooks/userAuth/useAuth.ts:19-22 | the local token when remember-me is 'true', otherwise the session token |
| Auth.LoginError | src/hooks/userAuth/useAuth.ts:66-72 | a refused login reports the server message, then the error message, then the default |
| Auth.LoginTokenIsRead | src/hooks/userAuth/useAuth.ts:54-61 | after login, the session check reads back the token just stored |
| Auth.TokenSources | src/hooks/userAuth/useAuth.ts:54-61 | a login without remember-me keeps a stale local token; after a remember-me login over a stale session token, the client sends the stale one |
| Auth.ClearedHasNoToken | src/hooks/userAuth/useAuth.ts:80-86 | after clearing, neither the session check nor the client finds a token |
| Auth.Session.ClearAuth | src/hooks/userAuth/useAuth.ts:80-86 | both tokens and remember-me are removed, and the user is signed out |
| Auth.Session.CheckAuth | src/hooks/userAuth/useAuth.ts:17-41 | the profile is requested exactly when a token is stored; a refused check clears the session; loading ends false |
| Auth.Session.HandleLogin | src/hooks/userAuth/useAuth.ts:43-73 | an accepted login stores the token where remember-me says; a refused one changes nothing and reports the error |
| Auth.Session.HandleLogout | src/hooks/userAuth/useAuth.ts:75-78 | logout clears the session and goes to the login page |
| Auth.Session.GetCurrentUserInfo | src/hooks/userAuth/useAuth.ts:88-98 | a successful profile call sets the user; otherwise nothing changes |
| Remote.ReplyError | src/pages/ResetPassword.tsx:30-34 | a refused reply reports its message or the refusal text; a failure reports the server message, then the error message, then the default |
| Environments.EnvironmentItems | src/pages/admin/EmailSend.tsx:38-43 | item i has id `env-i`, and the URL as label and value |
| Environments.EnvironmentIdsUnique | src/pages/admin/EmailSend.tsx:38-43 | environment ids are distinct |
| Environments.WithoutItems | src/pages/admin/EmailSend.tsx:60 | exactly the entries whose id matches no moved item are kept |
| Environments.EnvironmentLists.Load | src/pages/admin/EmailSend.tsx:33-53 | a reply sets the URLs and the available items; a failure shows an error toast |
| Environments.EnvironmentLists.Transfer | src/pages/admin/EmailSend.tsx:56-66 | moving right appends to the selection and removes those ids from the available list; moving left is the mirror image |
| Environments.TransferKeepsEnvironments | src/pages/admin/EmailSend.tsx:56-66 | a transfer loses no environment and creates none |
| Environments.ResultOf | src/pages/admin/EmailSend.tsx:88-97 | each result names its environment, succeeds exactly on success, and carries the server message or 'Erro desconhecido' |
| Environments.FanOut | src/pages/admin/EmailSend.tsx:86-99 | the loop gives one result per selected environment, in order, each from its own outcome |
| Environments.Names | src/pages/admin/EmailSend.tsx:111 | the failed names are the results' environments, in order |
| Environments.SummaryToasts | src/pages/admin/EmailSend.tsx:102-113 | a success toast comes first exactly when some environment succeeded, and it reports the number of successes in 'Email enviado com sucesso para N ambiente(s)'; an error toast comes last exactly when some environment failed, and it reads 'Falha ao enviar para: ' followed by the failed environments joined by ', ' |
| Environments.FailedEnvironments | src/pages/admin/EmailSend.tsx:86-111 | the environments whose calls failed: every failed selected environment is listed, and only those |
| Environments.FailedNamesInOrder | src/pages/admin/EmailSend.tsx:86-111 | after the fan-out, the names in the error toast are exactly the failed environments, in selection order |
| Environments.SuccessCount | src/pages/admin/EmailSend.tsx:102-107 | after the fan-out, the success count is the number of selected environments minus the failed ones |
| Environments.ResultsPartition | src/pages/admin/EmailSend.tsx:102-104 | successes and failures add up to all results, and the failures are exactly the failed results |
| Environments.AllOrNothing | src/pages/admin/EmailSend.tsx:86-113 | all failures give no successes, and all successes give no failures |
| EmailSend.ResetRequests | src/pages/admin/EmailSend.tsx:88-92 | one request per selected environment, in order, with both e-mail and username |
| EmailSend.EmailSendPage.HandleSendEmail | src/pages/admin/EmailSend.tsx:68-121 | both identifiers empty, or no environment selected, is refused before any request; otherwise one request per environment, `emailSent` set exactly when one succeeded, and loading ends false |
| EmailSend.EmailSendPage.HandleValidateToken | src/pages/admin/EmailSend.tsx:123-142 | success marks the token valid, an exception marks it invalid, and a refusal leaves it as it was |
| EmailSend.EmailSendPage.HandleChangePassword | src/pages/admin/EmailSend.tsx:144-175 | a mismatch is refused before any request; success resets the form and empties the selection without returning those environments to the available list |
| EmailSend.EmailSendPage.ResetForm | src/pages/admin/EmailSend.tsx:177-191 | every field is cleared and all environments are available again |
| EmailSendSimple.ResetBodies | src/pages/admin/EmailSendSimple.tsx:78-89 | one body `{environment, email, username}` per selected environment |
| EmailSendSimple.SimpleSendPage.HandleSendEmail | src/pages/admin/EmailSendSimple.tsx:60-112 | the same refusals as the full page; otherwise one request per environment, with neither list modified and loading ending false |
| ResetPassword.ResetPasswordPage.HandleSubmit | src/pages/ResetPassword.tsx:18-38 | the body holds only the e-mail; the confirmation shows exactly on success; otherwise an error toast; loading ends false |
| ResetPassword.ErrorPrecedence | src/pages/ResetPassword.tsx:30-34 | the server message comes first, then the error's message, then the default text |
| ResetPasswordForm.ResetPasswordFormPage.constructor | src/pages/ResetPasswordForm.tsx:27 | the token is read from the `token` query parameter |
| ResetPasswordForm.ResetPasswordFormPage.ValidateToken | src/pages/ResetPasswordForm.tsx:40-58 | the token is valid exactly on success; a refusal and an exception each add their toast; validation ends |
| ResetPasswordForm.ResetPasswordFormPage.Bootstrap | src/pages/ResetPasswordForm.tsx:29-38 | validation is requested exactly when a token is present, and the form shows exactly when it succeeded |
| ResetPasswordForm.ResetPasswordFormPage.HandleSubmit | src/pages/ResetPasswordForm.tsx:60-97 | a mismatch is refused first and a password shorter than 6 next; a request is issued exactly with equal passwords of length 6 or more, with body `{token, newPassword}` |

## Left out

- Rendering, styling, icons and the presentation-only components are not modelled.
- HTTP calls are not modelled: each remote call is an `Outcome` parameter.
- Toasts are recorded as a list of `Toast` values. Their timing and dismissal are not modelled.
- Navigation, `setTimeout` redirects, `window.open`, clipboard writes and blob or XLSX
  downloads are not modelled. The reset form's scheduled redirect is a flag.
- The `Promise.all` and `Promise.allSettled` concurrency is not modelled. `Promise.all` keeps input order, so each fan-out is a loop over an ordered list of outcomes.
- `new Date`, `toLocaleString`, `toLocaleDateString` and `toISOString` are not modelled.
  They are function parameters, such as `localeDateTime`, `localeDate` and `datePart`.
- DatePicker month navigation, the month name, the date arithmetic behind the 42 grid days, and the non-ISO branch of `formatDateForDisplay` are not modelled. The days are a parameter `dayAt`.
- Dashboard.DashboardPage.LoadDashboardData: the outer `catch` that resets the stats to zero is not modelled. Each call inside is already caught.
- The EmailSend outer `catch` around the fan-out is not modelled, because each request catches its own failure.
- Unicode case folding is not modelled: `toLowerCase` and `toUpperCase` are uninterpreted parameters.
- UTF-16 lengths are not modelled: string length is counted in Dafny characters. This affects the 6-character minimum and the truncation limits.
- TemplatePreview: the `$&`, `$1` and `$$` patterns of JavaScript replacement strings are not modelled. A subject containing `$` is inserted literally.
- Object-prototype keys are not modelled. For example, `routeLabels['constructor']` would find an inherited member in JavaScript, whereas label tables here are plain maps.
- ExportModal: the workbook and sheet writing, the file name with today's date, and the sheet name are not modelled. `NaN` and `0` are covered only as falsy values.
- SearchableSelect: the closing on a click outside the modal overlay is not modelled.
- I18n: the effect that adds or removes the `dark` class on the document is not modelled.
- Auth: the login request body is not modelled. The profile check goes through the default `api` instance, which has no interceptors, and `CheckAuth` takes its outcome as a parameter.
- Api: responses that pass through unchanged, and the default `api` instance without interceptors, are not modelled.
- The `:token` path segment declared in `src/routes/index.tsx` is not read by the reset form. Only the `token` query parameter is.
- Backend rules are not modelled: token expiry and single use, the default-template uniqueness, and truncation during dispatch.
- Utils.TruncateText: "unchanged" is stated in one direction only. A text that already ends in "..." at length `maxLength + 3` also truncates to itself.

## Findings

| source | as written | input that shows it | evidently intended | confidence | as-written member | corrected member |
|---|---|---|---|---|---|---|
| src/components/modals/ExportModal.tsx:113 | `row[field] \|\| ''` replaces `false` by `''` before the boolean branch at line 124 | a row whose `useToken` is `false` | `false` exports as 'Não', as the dialog's own note on booleans promises | not executed | ExportModal.FormatCellAsWritten, used by ExportModal.FormatRow with the `AsWritten` rule (shown by ExportModal.FalseExportsEmpty and ExportModal.FalseRowCell) | ExportModal.FormatCell, used by ExportModal.FormatRow with the `Corrected` rule (proved by ExportModal.BooleansExportAsSimNao and ExportModal.FalseRowCell) |
| src/pages/admin/Auditing.tsx:99-102 | the logs the server sent for `currentPage` (line 76, with `page` and `limit` in src/hooks/userAuditing/useAuditing.ts:17-20) are sliced again from `(currentPage - 1) * itemsPerPage` | 30 logs on the server, 10 per page, page 2: the reply holds logs 11-20, and the slice from index 10 of those 10 logs is empty | each page shows the logs the server sent for it, filtered locally | not executed | Auditing.AuditingPage.CurrentLogs (shown by Auditing.ServerPageShownEmpty) | Auditing.AuditingPage.PageLogs (proved by Auditing.ServerPageShownInFull) |
