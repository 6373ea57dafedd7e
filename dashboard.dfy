/** The admin Dashboard: the Brazilian date format, the summary counts, the two five-row lists
    with their page setters, the link from a log to the Auditing page, and the e-mail error
    panel. */
module Dashboard {
  import opened Remote
  import opened Types
  import Text
  import Paging

  /** `formatDateBR`: 'yyyy-mm-dd' becomes 'dd/mm/yyyy' with day and month padded to two
      digits; text whose first three '-'-parts are not all present and non-empty is shown as it
      is. */
  function FormatDateBR(iso: string): (r: string)
    ensures iso == "" ==> r == ""
  {
    if iso == "" then ""
    else
      var parts := Text.Split(iso, '-');
      if |parts| < 3 || parts[0] == "" || parts[1] == "" || parts[2] == "" then iso
      else Text.PadStart2(parts[2]) + "/" + Text.PadStart2(parts[1]) + "/" + parts[0]
  }

  /** An ISO date of three non-empty dash-free parts is shown day first. */
  lemma FormatDateBRIso(y: string, m: string, d: string)
    requires y != "" && m != "" && d != ""
    requires '-' !in y && '-' !in m && '-' !in d
    ensures FormatDateBR(y + "-" + m + "-" + d) == Text.PadStart2(d) + "/" + Text.PadStart2(m) + "/" + y
  {
    Text.SplitNoSeparator(d, '-');
    Text.SplitFirstPart(m, '-', d);
    Text.SplitFirstPart(y, '-', m + "-" + d);
    assert y + "-" + m + "-" + d == y + ['-'] + (m + ['-'] + d);
  }

  /** Parts after the third are ignored. */
  lemma FormatDateBRExtraParts(y: string, m: string, d: string, rest: string)
    requires y != "" && m != "" && d != ""
    requires '-' !in y && '-' !in m && '-' !in d
    ensures FormatDateBR(y + "-" + m + "-" + d + "-" + rest)
         == Text.PadStart2(d) + "/" + Text.PadStart2(m) + "/" + y
  {
    var tail := d + "-" + rest;
    var mid := m + "-" + tail;
    var whole := y + "-" + mid;
    Text.SplitFirstPart(d, '-', rest);
    assert d + ['-'] + rest == tail;
    Text.SplitFirstPart(m, '-', tail);
    assert m + ['-'] + tail == mid;
    Text.SplitFirstPart(y, '-', mid);
    assert y + ['-'] + mid == whole;
    assert whole == y + "-" + m + "-" + d + "-" + rest;
    var parts := Text.Split(whole, '-');
    assert parts[0] == y && parts[1] == m && parts[2] == d;
  }

  /** A date missing its day, or with an empty month, is shown as it is. */
  lemma FormatDateBRMalformed(y: string, m: string)
    requires '-' !in y && '-' !in m
    ensures FormatDateBR(y + "-" + m) == y + "-" + m
    ensures FormatDateBR(y + "--" + m) == y + "--" + m
  {
    Text.SplitNoSeparator(m, '-');
    Text.SplitFirstPart(y, '-', m);
    assert y + ['-'] + m == y + "-" + m;
    assert |Text.Split(y + "-" + m, '-')| == 2;
    var tail := "-" + m;
    Text.SplitFirstPart("", '-', m);
    assert "" + ['-'] + m == tail;
    Text.SplitFirstPart(y, '-', tail);
    assert y + ['-'] + tail == y + "--" + m;
    assert Text.Split(y + "--" + m, '-')[1] == "";
  }

  /** The four summary counts. */
  datatype Stats = Stats(totalUsers: nat, totalWebServices: nat, totalEmails: nat, activeServices: nat)

  datatype UsersReply = UsersReply(total: Option<nat>, users: Option<seq<User>>)
  datatype ServicesReply = ServicesReply(webServices: Option<seq<WebService>>, total: Option<nat>)
  datatype LogsReply = LogsReply(auditing: Option<seq<AuditLog>>, total: Option<nat>)

  /** `x || []` for an optional list. */
  function ListOr<T>(x: Option<seq<T>>): seq<T>
  {
    if x.Some? then x.value else []
  }

  /** `a || b` on numbers: the first unless it is absent or 0. */
  function CountOr(a: Option<nat>, b: nat): (r: nat)
    ensures a.Some? && a.value != 0 ==> r == a.value
    ensures !(a.Some? && a.value != 0) ==> r == b
  {
    if a.Some? && a.value != 0 then a.value else b
  }

  function ActiveServices(services: seq<WebService>): (r: seq<WebService>)
    ensures |r| <= |services|
    ensures forall i :: 0 <= i < |r| ==> r[i].isActive && r[i] in services
    ensures forall i :: 0 <= i < |services| ==> (services[i].isActive ==> services[i] in r)
  {
    Paging.Filter(services, (s: WebService) => s.isActive)
  }

  function SentLogs(logs: seq<AuditLog>): (r: seq<AuditLog>)
    ensures |r| <= |logs|
    ensures forall i :: 0 <= i < |r| ==> r[i].emailSent && r[i] in logs
    ensures forall i :: 0 <= i < |logs| ==> (logs[i].emailSent ==> logs[i] in r)
  {
    Paging.Filter(logs, (log: AuditLog) => log.emailSent)
  }

  /** The search parameter of the link from a log to the Auditing page: the first non-empty
      field among id, e-mail, username and phone, with the name of that field. */
  function AuditSearch(log: AuditLog): (r: Option<(string, string)>)
    ensures r.None? <==> log.id == "" && log.email == "" && log.username == "" && log.phone == ""
    ensures r.Some? ==> r.value.0 != ""
    ensures r.Some? && r.value.1 == "id" ==> r.value.0 == log.id
    ensures r.Some? && r.value.1 == "email" ==> r.value.0 == log.email && log.id == ""
    ensures r.Some? && r.value.1 == "username" ==> r.value.0 == log.username && log.id == "" && log.email == ""
    ensures r.Some? && r.value.1 == "phone" ==>
      r.value.0 == log.phone && log.id == "" && log.email == "" && log.username == ""
    ensures r.Some? ==> r.value.1 in {"id", "email", "username", "phone"}
  {
    if log.id != "" then Some((log.id, "id"))
    else if log.email != "" then Some((log.email, "email"))
    else if log.username != "" then Some((log.username, "username"))
    else if log.phone != "" then Some((log.phone, "phone"))
    else None
  }

  /** The logs of the selected day; `datePart` is the day of the log's timestamp in ISO form,
      which the page gets from the clock library. */
  function FilteredAuditLogs(logs: seq<AuditLog>, dateFilter: string, datePart: string -> string): (r: seq<AuditLog>)
    ensures dateFilter == "" ==> r == logs
    ensures forall i :: 0 <= i < |r| ==> r[i] in logs && (dateFilter == "" || datePart(r[i].createdAt) == dateFilter)
    ensures forall i :: 0 <= i < |logs| ==>
      (dateFilter == "" || datePart(logs[i].createdAt) == dateFilter ==> logs[i] in r)
  {
    var keep := (log: AuditLog) => dateFilter == "" || datePart(log.createdAt) == dateFilter;
    if dateFilter == "" then Paging.FilterKeepsAll(logs, keep); Paging.Filter(logs, keep)
    else Paging.Filter(logs, keep)
  }

  /** The words that mark an error as an e-mail or reset failure. */
  const ErrorKeywords: seq<string> := [
    "email", "envio", "usuário não encontrado", "user not found", "falha", "erro", "error",
    "invalid", "inválido", "expirado", "expired"]

  predicate IsEmailError(log: AuditLog, lower: string -> string)
  {
    log.status == "error" && exists k :: 0 <= k < |ErrorKeywords| && Text.Contains(lower(log.description), ErrorKeywords[k])
  }

  function EmailErrorLogs(logs: seq<AuditLog>, lower: string -> string): (r: seq<AuditLog>)
    ensures forall i :: 0 <= i < |r| ==> r[i] in logs && r[i].status == "error" && IsEmailError(r[i], lower)
    ensures forall i :: 0 <= i < |logs| ==> (IsEmailError(logs[i], lower) ==> logs[i] in r)
  {
    Paging.Filter(logs, (log: AuditLog) => IsEmailError(log, lower))
  }

  /** At most five errors are listed, the first ones. */
  function ShownErrors(errors: seq<AuditLog>): (shown: seq<AuditLog>)
    ensures |shown| <= 5 && shown <= errors
    ensures |errors| <= 5 ==> shown == errors
  {
    if |errors| <= 5 then errors else errors[..5]
  }

  /** The "showing 5 of N" note appears exactly when some errors are not listed. */
  predicate OverflowNote(errors: seq<AuditLog>)
  {
    |errors| > 5
  }

  lemma OverflowNoteIffHidden(errors: seq<AuditLog>)
    ensures OverflowNote(errors) <==> |ShownErrors(errors)| < |errors|
    ensures OverflowNote(errors) ==> |ShownErrors(errors)| == 5
  {
  }

  /** Rows per page of both lists. */
  const PageSize: nat := 5

  class DashboardPage {
    var stats: Stats
    var webServices: seq<WebService>
    var auditLogs: seq<AuditLog>
    var auditPage: int
    var webServicesPage: int
    var dateFilter: string
    var auditTotal: nat
    var webServicesTotal: nat

    ghost predicate Valid()
      reads this
    {
      auditPage >= 1 && webServicesPage >= 1
    }

    constructor ()
      ensures Valid()
      ensures stats == Stats(0, 0, 0, 0) && webServices == [] && auditLogs == []
      ensures auditPage == 1 && webServicesPage == 1 && dateFilter == ""
      ensures auditTotal == 0 && webServicesTotal == 0
    {
      stats := Stats(0, 0, 0, 0);
      webServices, auditLogs := [], [];
      auditPage, webServicesPage, dateFilter := 1, 1, "";
      auditTotal, webServicesTotal := 0, 0;
    }

    /** `loadDashboardData`: the server's counts when the stats call gives any; otherwise each
        count is worked out from the replies that arrived, and stays 0 for a reply that
        failed. */
    method LoadDashboardData(statsReply: Option<Stats>, servicesReply: Outcome<ServicesReply>,
                             usersReply: Outcome<UsersReply>, logsReply: Outcome<LogsReply>)
      modifies this
      ensures statsReply.Some? ==> stats == statsReply.value
      ensures statsReply.None? ==>
        && stats.totalUsers == (if usersReply.Success?
                                then CountOr(usersReply.value.total, |ListOr(usersReply.value.users)|) else 0)
        && stats.totalWebServices == (if servicesReply.Success? then |ListOr(servicesReply.value.webServices)| else 0)
        && stats.activeServices == (if servicesReply.Success?
                                    then |ActiveServices(ListOr(servicesReply.value.webServices))| else 0)
        && stats.totalEmails == (if logsReply.Success? then |SentLogs(ListOr(logsReply.value.auditing))| else 0)
      ensures statsReply.None? ==> stats.activeServices <= stats.totalWebServices
      ensures webServices == old(webServices) && auditLogs == old(auditLogs)
      ensures auditPage == old(auditPage) && webServicesPage == old(webServicesPage) && dateFilter == old(dateFilter)
      ensures auditTotal == old(auditTotal) && webServicesTotal == old(webServicesTotal)
    {
      if statsReply.Some? {
        stats := statsReply.value;
      } else {
        var calculated := Stats(0, 0, 0, 0);
        if usersReply.Success? {
          calculated := calculated.(totalUsers := CountOr(usersReply.value.total, |ListOr(usersReply.value.users)|));
        }
        if servicesReply.Success? {
          var services := ListOr(servicesReply.value.webServices);
          calculated := calculated.(totalWebServices := |services|);
          calculated := calculated.(activeServices := |ActiveServices(services)|);
        }
        if logsReply.Success? {
          calculated := calculated.(totalEmails := |SentLogs(ListOr(logsReply.value.auditing))|);
        }
        stats := calculated;
      }
    }

    /** `loadAuditLogs`: the day's logs and the server's total; a failure keeps both. */
    method LoadAuditLogs(reply: Outcome<LogsReply>)
      modifies this
      ensures reply.Success? ==> auditLogs == ListOr(reply.value.auditing) && auditTotal == CountOr(reply.value.total, 0)
      ensures reply.Failure? ==> auditLogs == old(auditLogs) && auditTotal == old(auditTotal)
      ensures stats == old(stats) && webServices == old(webServices) && webServicesTotal == old(webServicesTotal)
      ensures auditPage == old(auditPage) && webServicesPage == old(webServicesPage) && dateFilter == old(dateFilter)
    {
      if reply.Success? {
        auditLogs := ListOr(reply.value.auditing);
        auditTotal := CountOr(reply.value.total, 0);
      }
    }

    /** `loadWebServicesData`: the page of services, and as total the server's total, else the
        number of services received. */
    method LoadWebServicesData(reply: Outcome<ServicesReply>)
      modifies this
      ensures reply.Success? ==>
        && webServices == ListOr(reply.value.webServices)
        && webServicesTotal == CountOr(reply.value.total, |ListOr(reply.value.webServices)|)
      ensures reply.Failure? ==> webServices == old(webServices) && webServicesTotal == old(webServicesTotal)
      ensures stats == old(stats) && auditLogs == old(auditLogs) && auditTotal == old(auditTotal)
      ensures auditPage == old(auditPage) && webServicesPage == old(webServicesPage) && dateFilter == old(dateFilter)
    {
      if reply.Success? {
        webServices := ListOr(reply.value.webServices);
        webServicesTotal := CountOr(reply.value.total, |webServices|);
      }
    }

    /** `goToAuditPage`: bounded below by 1 only. */
    method GoToAuditPage(page: int)
      requires Valid()
      modifies this
      ensures Valid()
      ensures auditPage == (if page < 1 then 1 else page)
      ensures webServicesPage == old(webServicesPage) && dateFilter == old(dateFilter)
    {
      auditPage := if page < 1 then 1 else page;
    }

    /** `goToWebServicesPage`: bounded below by 1 only. */
    method GoToWebServicesPage(page: int)
      requires Valid()
      modifies this
      ensures Valid()
      ensures webServicesPage == (if page < 1 then 1 else page)
      ensures auditPage == old(auditPage) && dateFilter == old(dateFilter)
    {
      webServicesPage := if page < 1 then 1 else page;
    }

    /** Choosing a day filters the logs by it and goes back to the first page. */
    method SetDateFilter(date: string)
      requires Valid()
      modifies this
      ensures Valid()
      ensures dateFilter == date && auditPage == 1 && webServicesPage == old(webServicesPage)
    {
      dateFilter := date;
      auditPage := 1;
    }

    method ClearDateFilter()
      requires Valid()
      modifies this
      ensures Valid()
      ensures dateFilter == "" && auditPage == 1 && webServicesPage == old(webServicesPage)
    {
      dateFilter := "";
      auditPage := 1;
    }

    /** The audit list's page count follows the day filter; the services' follows the total. */
    function AuditTotalPages(datePart: string -> string): (t: nat)
      reads this
      ensures |FilteredAuditLogs(auditLogs, dateFilter, datePart)| <= t * PageSize
      ensures t == 0 || (t - 1) * PageSize < |FilteredAuditLogs(auditLogs, dateFilter, datePart)|
    {
      Paging.TotalPages(|FilteredAuditLogs(auditLogs, dateFilter, datePart)|, PageSize)
    }

    function WebServicesTotalPages(): (t: nat)
      reads this
      ensures webServicesTotal <= t * PageSize
      ensures t == 0 || (t - 1) * PageSize < webServicesTotal
    {
      Paging.TotalPages(webServicesTotal, PageSize)
    }
  }

  /** The fallback counts never report more active services than services. */
  lemma FallbackActiveAtMostTotal(services: seq<WebService>)
    ensures |ActiveServices(services)| <= |services|
    ensures |ActiveServices(services)| == |services| <==> forall i :: 0 <= i < |services| ==> services[i].isActive
  {
    ActiveCount(services);
  }

  lemma {:induction false} ActiveCount(services: seq<WebService>)
    ensures |ActiveServices(services)| == |services| <==> forall i :: 0 <= i < |services| ==> services[i].isActive
    decreases |services|
  {
    if services != [] {
      var last := services[|services| - 1];
      var init := services[..|services| - 1];
      assert services == init + [last];
      Paging.FilterAppend(init, last, (s: WebService) => s.isActive);
      ActiveCount(init);
      if !last.isActive {
        assert |ActiveServices(init)| <= |init|;
      } else if forall i :: 0 <= i < |init| ==> init[i].isActive {
        assert forall i :: 0 <= i < |services| ==> services[i].isActive by {
          forall i | 0 <= i < |services| ensures services[i].isActive {
            if i < |init| { assert services[i] == init[i]; }
          }
        }
      } else {
        var j :| 0 <= j < |init| && !init[j].isActive;
        assert services[j] == init[j];
      }
    }
  }
}
