/** The Users admin page: search over name and e-mail, pagination and the current-user test. */
module Users {
  import opened Remote
  import opened Types
  import Text
  import Paging

  /** A user matches when the lower-cased name or e-mail contains the lower-cased term; a
      missing name or e-mail is the empty text. */
  predicate Matches(u: User, term: string, lower: string -> string)
  {
    Text.Contains(lower(u.name), lower(term)) || Text.Contains(lower(u.email), lower(term))
  }

  function FilteredUsers(users: seq<User>, term: string, lower: string -> string): (r: seq<User>)
    ensures |r| <= |users|
    ensures forall i :: 0 <= i < |r| ==> r[i] in users && Matches(r[i], term, lower)
    ensures forall i :: 0 <= i < |users| ==> (Matches(users[i], term, lower) ==> users[i] in r)
  {
    Paging.Filter(users, (u: User) => Matches(u, term, lower))
  }

  /** `isCurrentUser`: the signed-in user (if any) has the same id. */
  predicate IsCurrentUser(current: Option<User>, u: User)
  {
    current.Some? && current.value.id == u.id
  }

  /** Nobody is the current user when no one is signed in, and the test depends on ids only. */
  lemma IsCurrentUserById(current: Option<User>, u: User, v: User)
    ensures !IsCurrentUser(None, u)
    ensures u.id == v.id ==> (IsCurrentUser(current, u) <==> IsCurrentUser(current, v))
  {
  }

  class UsersPage {
    var users: seq<User>
    const list: Paging.ListState

    ghost predicate Valid()
      reads this, list
    {
      list.Valid()
    }

    constructor ()
      ensures Valid() && fresh(list)
      ensures users == []
      ensures list.currentPage == 1 && list.searchTerm == "" && list.itemsPerPage == 10
    {
      users := [];
      list := new Paging.ListState();
    }

    /** `loadUsers`: the reply's users, or none when the reply has no list; a failure keeps
        the list. */
    method LoadUsers(reply: Outcome<Option<seq<User>>>)
      modifies this
      ensures reply.Success? ==> users == (if reply.value.Some? then reply.value.value else [])
      ensures reply.Failure? ==> users == old(users)
    {
      if reply.Success? {
        users := if reply.value.Some? then reply.value.value else [];
      }
    }

    /** The search box; the effect on `[searchTerm]` goes back to page 1. */
    method SetSearch(term: string)
      requires Valid()
      modifies list
      ensures Valid()
      ensures list.searchTerm == term && list.currentPage == 1 && list.itemsPerPage == old(list.itemsPerPage)
    {
      list.SetSearch(term);
    }

    /** The items-per-page selector sets the size and page 1. */
    method SetItemsPerPage(n: nat)
      requires Valid() && n > 0
      modifies list
      ensures Valid()
      ensures list.itemsPerPage == n && list.currentPage == 1 && list.searchTerm == old(list.searchTerm)
    {
      list.SetItemsPerPage(n);
    }

    function Filtered(lower: string -> string): (r: seq<User>)
      reads this, list
      ensures forall i :: 0 <= i < |r| ==> r[i] in users && Matches(r[i], list.searchTerm, lower)
    {
      FilteredUsers(users, list.searchTerm, lower)
    }

    /** `Math.ceil(filteredUsers.length / itemsPerPage)`. */
    function TotalPages(lower: string -> string): (t: nat)
      requires Valid()
      reads this, list
      ensures |Filtered(lower)| <= t * list.itemsPerPage
      ensures t == 0 || (t - 1) * list.itemsPerPage < |Filtered(lower)|
    {
      Paging.TotalPages(|Filtered(lower)|, list.itemsPerPage)
    }

    method GoToPage(page: int, lower: string -> string)
      requires Valid()
      modifies list
      ensures Valid()
      ensures list.currentPage == Paging.GoToPage(page, TotalPages(lower))
      ensures 1 <= list.currentPage && (TotalPages(lower) >= 1 ==> list.currentPage <= TotalPages(lower))
      ensures list.searchTerm == old(list.searchTerm) && list.itemsPerPage == old(list.itemsPerPage)
    {
      list.GoTo(page, TotalPages(lower));
    }

    /** The rows of the current page. */
    function CurrentUsers(lower: string -> string): (rows: seq<User>)
      requires Valid()
      reads this, list
      ensures |rows| <= list.itemsPerPage
      ensures forall i :: 0 <= i < |rows| ==> rows[i] in users && Matches(rows[i], list.searchTerm, lower)
    {
      Paging.PageRows(Filtered(lower), list.currentPage, list.itemsPerPage)
    }
  }

  /** The list holds what the server sent for the requested page and limit, and the page count
      is worked out from that list alone: once the reply holds at most one page, there is at
      most one page and going to any page lands on page 1, so the server's later pages are
      never shown. */
  lemma SinglePageReachable(page: UsersPage, lower: string -> string, target: int)
    requires page.Valid()
    requires |page.users| <= page.list.itemsPerPage
    ensures page.TotalPages(lower) <= 1
    ensures Paging.GoToPage(target, page.TotalPages(lower)) == 1
  {
    var t := page.TotalPages(lower);
    if t >= 2 {
      Paging.MulMonotone(1, t - 1, page.list.itemsPerPage);
    }
  }
}
