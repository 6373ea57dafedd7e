/** The Auditing admin page: local search and status filter over the page of logs the server
    sent, page count from the server's total, and the list resets. */
module Auditing {
  import opened Remote
  import opened Types
  import Text
  import Paging
  import AuditingViewModal

  /** The id and phone are searched for the term as typed; username, e-mail and description
      are compared lower-cased. */
  predicate MatchesSearch(log: AuditLog, term: string, lower: string -> string)
  {
    || Text.Contains(log.id, term)
    || Text.Contains(lower(log.username), lower(term))
    || Text.Contains(lower(log.email), lower(term))
    || Text.Contains(log.phone, term)
    || Text.Contains(lower(log.description), lower(term))
  }

  /** An empty status filter keeps every status. */
  predicate MatchesStatus(log: AuditLog, statusFilter: string)
  {
    statusFilter == "" || log.status == statusFilter
  }

  function FilteredLogs(logs: seq<AuditLog>, term: string, statusFilter: string, lower: string -> string): (r: seq<AuditLog>)
    ensures forall i :: 0 <= i < |r| ==>
      r[i] in logs && MatchesSearch(r[i], term, lower) && MatchesStatus(r[i], statusFilter)
    ensures forall i :: 0 <= i < |logs| ==>
      (MatchesSearch(logs[i], term, lower) && MatchesStatus(logs[i], statusFilter) ==> logs[i] in r)
  {
    Paging.Filter(logs, (log: AuditLog) => MatchesSearch(log, term, lower) && MatchesStatus(log, statusFilter))
  }

  /** With no search term and no status filter every log is listed. */
  lemma EmptyFiltersKeepAll(logs: seq<AuditLog>, lower: string -> string)
    ensures FilteredLogs(logs, "", "", lower) == logs
  {
    forall i | 0 <= i < |logs| ensures MatchesSearch(logs[i], "", lower) {
      assert "" <= logs[i].id;
    }
    Paging.FilterKeepsAll(logs, (log: AuditLog) => MatchesSearch(log, "", lower) && MatchesStatus(log, ""));
  }

  /** The server's reply to the log request. */
  datatype LogsReply = LogsReply(auditing: Option<seq<AuditLog>>, total: Option<nat>)

  class AuditingPage {
    var auditLogs: seq<AuditLog>
    var totalItems: nat
    var statusFilter: string
    const list: Paging.ListState

    ghost predicate Valid()
      reads this, list
    {
      list.Valid()
    }

    constructor ()
      ensures Valid() && fresh(list)
      ensures auditLogs == [] && totalItems == 0 && statusFilter == ""
      ensures list.currentPage == 1 && list.searchTerm == "" && list.itemsPerPage == 10
    {
      auditLogs, totalItems, statusFilter := [], 0, "";
      list := new Paging.ListState();
    }

    /** `loadAuditoria`: the reply's logs (none if absent) and its total (0 if absent); an
        exception leaves both as they were. */
    method LoadAuditoria(reply: Outcome<LogsReply>)
      modifies this
      ensures reply.Success? ==>
        && auditLogs == (if reply.value.auditing.Some? then reply.value.auditing.value else [])
        && totalItems == (if reply.value.total.Some? then reply.value.total.value else 0)
      ensures reply.Failure? ==> auditLogs == old(auditLogs) && totalItems == old(totalItems)
      ensures statusFilter == old(statusFilter)
    {
      if reply.Success? {
        auditLogs := if reply.value.auditing.Some? then reply.value.auditing.value else [];
        totalItems := if reply.value.total.Some? then reply.value.total.value else 0;
      }
    }

    /** A `search` URL parameter becomes the search term (and so page 1). */
    method ApplySearchParam(search: Option<string>)
      requires Valid()
      modifies list
      ensures Valid()
      ensures search.Some? && search.value != "" ==> list.searchTerm == search.value && list.currentPage == 1
      ensures !(search.Some? && search.value != "") ==>
        list.searchTerm == old(list.searchTerm) && list.currentPage == old(list.currentPage)
    {
      if search.Some? && search.value != "" {
        list.SetSearch(search.value);
      }
    }

    /** Changing the search term resets the page to 1. */
    method SetSearch(term: string)
      requires Valid()
      modifies list
      ensures Valid()
      ensures list.searchTerm == term && list.currentPage == 1 && list.itemsPerPage == old(list.itemsPerPage)
    {
      list.SetSearch(term);
    }

    /** Changing the status filter resets the page to 1 as well. */
    method SetStatusFilter(status: string)
      requires Valid()
      modifies this, list
      ensures Valid()
      ensures statusFilter == status && list.currentPage == 1
      ensures list.searchTerm == old(list.searchTerm) && list.itemsPerPage == old(list.itemsPerPage)
      ensures auditLogs == old(auditLogs) && totalItems == old(totalItems)
    {
      statusFilter := status;
      list.ResetPage();
    }

    /** The items-per-page selector sets the size and goes back to page 1. */
    method SetItemsPerPage(n: nat)
      requires Valid() && n > 0
      modifies list
      ensures Valid()
      ensures list.itemsPerPage == n && list.currentPage == 1 && list.searchTerm == old(list.searchTerm)
    {
      list.SetItemsPerPage(n);
    }

    /** The page count comes from the server's total, not from the filtered logs. */
    function TotalPages(): nat
      requires Valid()
      reads this, list
    {
      Paging.TotalPages(totalItems, list.itemsPerPage)
    }

    method GoToPage(page: int)
      requires Valid()
      modifies list
      ensures Valid()
      ensures list.currentPage == Paging.GoToPage(page, TotalPages())
      ensures 1 <= list.currentPage && (TotalPages() >= 1 ==> list.currentPage <= TotalPages())
    {
      list.GoTo(page, TotalPages());
    }

    /** The rows shown: the current page's slice of the locally filtered logs. */
    function CurrentLogs(lower: string -> string): (rows: seq<AuditLog>)
      requires Valid()
      reads this, list
      ensures |rows| <= list.itemsPerPage
      ensures forall i :: 0 <= i < |rows| ==>
        rows[i] in auditLogs && MatchesSearch(rows[i], list.searchTerm, lower)
        && MatchesStatus(rows[i], statusFilter)
    {
      Paging.PageRows(FilteredLogs(auditLogs, list.searchTerm, statusFilter, lower), list.currentPage, list.itemsPerPage)
    }

    /** Corrected: the rows are the page the server sent, filtered locally and not sliced a
        second time. */
    function PageLogs(lower: string -> string): (rows: seq<AuditLog>)
      requires Valid()
      reads this, list
      ensures |rows| <= |auditLogs|
      ensures forall i :: 0 <= i < |rows| ==>
        rows[i] in auditLogs && MatchesSearch(rows[i], list.searchTerm, lower)
        && MatchesStatus(rows[i], statusFilter)
    {
      FilteredLogs(auditLogs, list.searchTerm, statusFilter, lower)
    }

    /** The status shown for each row. */
    function RowStatus(log: AuditLog, lower: string -> string): (status: string)
      ensures status == log.status || status == "error"
    {
      AuditingViewModal.CorrectedStatus(log, lower)
    }
  }

  /** The page the server sent for `currentPage` is sliced a second time at
      `(currentPage - 1) * itemsPerPage`: once the reply holds at most one page, every page
      after the first shows no rows, although the server's total can put that page within the
      page count. */
  lemma ServerPageShownEmpty(page: AuditingPage, lower: string -> string)
    requires page.Valid()
    requires |page.auditLogs| <= page.list.itemsPerPage
    requires page.list.currentPage >= 2
    ensures page.CurrentLogs(lower) == []
    ensures page.totalItems > (page.list.currentPage - 1) * page.list.itemsPerPage ==>
      page.TotalPages() >= page.list.currentPage
  {
    var n, p := page.list.itemsPerPage, page.list.currentPage;
    Paging.MulMonotone(1, p - 1, n);
    var filtered := FilteredLogs(page.auditLogs, page.list.searchTerm, page.statusFilter, lower);
    assert |filtered| <= |page.auditLogs|;
    if page.totalItems > (p - 1) * n {
      PageWithinTotal(page.totalItems, n, page.TotalPages(), p);
    }
  }

  /** A total beyond `p - 1` full pages needs at least `p` pages. */
  lemma PageWithinTotal(total: nat, n: nat, t: nat, p: nat)
    requires p >= 1 && total <= t * n && total > (p - 1) * n
    ensures t >= p
  {
    if t < p {
      Paging.MulMonotone(t, p - 1, n);
    }
  }

  /** Corrected, the rows are the server's page with the local filter applied: that page is
      shown whole on every page number, and on page 1 it is what the page shows as written. */
  lemma ServerPageShownInFull(page: AuditingPage, lower: string -> string)
    requires page.Valid()
    requires |page.auditLogs| <= page.list.itemsPerPage
    ensures |page.PageLogs(lower)| <= page.list.itemsPerPage
    ensures forall i :: 0 <= i < |page.auditLogs| ==>
      (MatchesSearch(page.auditLogs[i], page.list.searchTerm, lower) && MatchesStatus(page.auditLogs[i], page.statusFilter)
       ==> page.auditLogs[i] in page.PageLogs(lower))
    ensures page.list.currentPage == 1 ==> page.CurrentLogs(lower) == page.PageLogs(lower)
  {
    var filtered := FilteredLogs(page.auditLogs, page.list.searchTerm, page.statusFilter, lower);
    assert |filtered| <= |page.auditLogs|;
    if page.list.currentPage == 1 {
      assert filtered[0..|filtered|] == filtered;
    }
  }
}
