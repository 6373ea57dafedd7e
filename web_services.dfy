/** The WebServices admin page: search over name and URL, pagination and the active toggle. */
module WebServices {
  import opened Remote
  import opened Types
  import Text
  import Paging

  /** A service matches when its lower-cased name or URL contains the lower-cased term. */
  predicate Matches(s: WebService, term: string, lower: string -> string)
  {
    Text.Contains(lower(s.serviceName), lower(term)) || Text.Contains(lower(s.url), lower(term))
  }

  function FilteredServices(services: seq<WebService>, term: string, lower: string -> string): (r: seq<WebService>)
    ensures |r| <= |services|
    ensures forall i :: 0 <= i < |r| ==> r[i] in services && Matches(r[i], term, lower)
    ensures forall i :: 0 <= i < |services| ==> (Matches(services[i], term, lower) ==> services[i] in r)
  {
    Paging.Filter(services, (s: WebService) => Matches(s, term, lower))
  }

  /** The list after a successful toggle call: the service with that id has `isActive` negated,
      every other field and every other service is as it was. */
  function Toggled(services: seq<WebService>, id: string): (r: seq<WebService>)
    ensures |r| == |services|
    ensures forall i :: 0 <= i < |r| ==>
      r[i] == (if services[i].id == id then services[i].(isActive := !services[i].isActive) else services[i])
  {
    if services == [] then []
    else
      var s := services[0];
      [if s.id == id then s.(isActive := !s.isActive) else s] + Toggled(services[1..], id)
  }

  /** Toggling the same id twice restores the list, and an id that no service has changes
      nothing. */
  lemma {:induction false} ToggledTwice(services: seq<WebService>, id: string)
    ensures Toggled(Toggled(services, id), id) == services
    ensures (forall i :: 0 <= i < |services| ==> services[i].id != id) ==> Toggled(services, id) == services
    decreases |services|
  {
    if services != [] {
      ToggledTwice(services[1..], id);
      assert Toggled(services, id)[1..] == Toggled(services[1..], id);
    }
  }

  class WebServicesPage {
    var services: seq<WebService>
    const list: Paging.ListState

    ghost predicate Valid()
      reads this, list
    {
      list.Valid()
    }

    constructor ()
      ensures Valid() && fresh(list)
      ensures services == []
      ensures list.currentPage == 1 && list.searchTerm == "" && list.itemsPerPage == 10
    {
      services := [];
      list := new Paging.ListState();
    }

    /** `loadWebServices`: the reply's services, or none when the reply has no list; a failure
        keeps the list. */
    method LoadWebServices(reply: Outcome<Option<seq<WebService>>>)
      modifies this
      ensures reply.Success? ==> services == (if reply.value.Some? then reply.value.value else [])
      ensures reply.Failure? ==> services == old(services)
    {
      if reply.Success? {
        services := if reply.value.Some? then reply.value.value else [];
      }
    }

    /** `toggleService`: after the call succeeds the service's `isActive` is negated; a failed
        call leaves the list as it was. */
    method ToggleService(id: string, reply: Outcome<()>)
      modifies this
      ensures reply.Success? ==> services == Toggled(old(services), id)
      ensures reply.Failure? ==> services == old(services)
    {
      if reply.Success? {
        services := Toggled(services, id);
      }
    }

    /** The search box; the effect on `[searchTerm]` goes back to page 1. */
    method SetSearch(term: string)
      requires Valid()
      modifies list
      ensures Valid()
      ensures list.searchTerm == term && list.currentPage == 1 && list.itemsPerPage == old(list.itemsPerPage)
    {
      list.SetSearch(term);
    }

    /** The items-per-page selector sets the size and page 1. */
    method SetItemsPerPage(n: nat)
      requires Valid() && n > 0
      modifies list
      ensures Valid()
      ensures list.itemsPerPage == n && list.currentPage == 1 && list.searchTerm == old(list.searchTerm)
    {
      list.SetItemsPerPage(n);
    }

    function Filtered(lower: string -> string): (r: seq<WebService>)
      reads this, list
      ensures forall i :: 0 <= i < |r| ==> r[i] in services && Matches(r[i], list.searchTerm, lower)
    {
      FilteredServices(services, list.searchTerm, lower)
    }

    /** `Math.ceil(filteredWebServices.length / itemsPerPage)`. */
    function TotalPages(lower: string -> string): (t: nat)
      requires Valid()
      reads this, list
      ensures |Filtered(lower)| <= t * list.itemsPerPage
      ensures t == 0 || (t - 1) * list.itemsPerPage < |Filtered(lower)|
    {
      Paging.TotalPages(|Filtered(lower)|, list.itemsPerPage)
    }

    method GoToPage(page: int, lower: string -> string)
      requires Valid()
      modifies list
      ensures Valid()
      ensures list.currentPage == Paging.GoToPage(page, TotalPages(lower))
      ensures 1 <= list.currentPage && (TotalPages(lower) >= 1 ==> list.currentPage <= TotalPages(lower))
      ensures list.searchTerm == old(list.searchTerm) && list.itemsPerPage == old(list.itemsPerPage)
    {
      list.GoTo(page, TotalPages(lower));
    }

    /** The rows of the current page. */
    function CurrentServices(lower: string -> string): (rows: seq<WebService>)
      requires Valid()
      reads this, list
      ensures |rows| <= list.itemsPerPage
      ensures forall i :: 0 <= i < |rows| ==> rows[i] in services && Matches(rows[i], list.searchTerm, lower)
    {
      Paging.PageRows(Filtered(lower), list.currentPage, list.itemsPerPage)
    }
  }

  /** The list holds what the server sent for the requested page and limit, and the page count
      is worked out from that list alone: once the reply holds at most one page, there is at
      most one page and going to any page lands on page 1, so the server's later pages are
      never shown. */
  lemma SinglePageReachable(page: WebServicesPage, lower: string -> string, target: int)
    requires page.Valid()
    requires |page.services| <= page.list.itemsPerPage
    ensures page.TotalPages(lower) <= 1
    ensures Paging.GoToPage(target, page.TotalPages(lower)) == 1
  {
    var t := page.TotalPages(lower);
    if t >= 2 {
      Paging.MulMonotone(1, t - 1, page.list.itemsPerPage);
    }
  }
}
