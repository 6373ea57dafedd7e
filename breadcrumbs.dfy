/** The breadcrumb trail built from the current path: Home first, one crumb per path segment
    (a leading 'admin' skipped), links to the cumulative paths and the last crumb current. */
module Breadcrumbs {
  import opened Remote
  import Text
  import Paging

  datatype Crumb = Crumb(caption: string, href: Option<string>, current: bool)

  const HomeHref: string := "/admin/dashboard"

  /** `pathname.split('/').filter(Boolean)`. */
  function Segments(path: string): (segs: seq<string>)
    ensures forall i :: 0 <= i < |segs| ==> segs[i] != "" && '/' !in segs[i]
  {
    Text.SplitJoin(path, '/');
    Paging.Filter(Text.Split(path, '/'), (s: string) => s != "")
  }

  /** The cumulative path of some segments: '/' before each. */
  function PathOf(segs: seq<string>): string
  {
    if segs == [] then "" else PathOf(segs[..|segs| - 1]) + "/" + segs[|segs| - 1]
  }

  /** The route label when the table has a non-empty one, else the capitalised segment. */
  function CrumbLabel(segment: string, labels: map<string, string>, upper: string -> string): (r: string)
    ensures segment in labels && labels[segment] != "" ==> r == labels[segment]
    ensures !(segment in labels && labels[segment] != "") ==> r == Text.Capitalize(segment, upper)
  {
    OrElse(if segment in labels then labels[segment] else "", Text.Capitalize(segment, upper))
  }

  /** The crumb of segment `i`: a link to its cumulative path, except the last, which is current. */
  function CrumbAt(segs: seq<string>, i: nat, labels: map<string, string>, upper: string -> string): Crumb
    requires i < |segs|
  {
    var isLast := i == |segs| - 1;
    Crumb(CrumbLabel(segs[i], labels, upper), if isLast then None else Some(PathOf(segs[..i + 1])), isLast)
  }

  /** 1 when the first segment is 'admin', which gets no crumb of its own. */
  function Skipped(segs: seq<string>): nat
  {
    if |segs| > 0 && segs[0] == "admin" then 1 else 0
  }

  function Home(homeCaption: string): Crumb
  {
    Crumb(homeCaption, Some(HomeHref), false)
  }

  /** The trail for some segments. */
  function Trail(segs: seq<string>, homeCaption: string, labels: map<string, string>, upper: string -> string): (r: seq<Crumb>)
    ensures |r| == 1 + |segs| - Skipped(segs) && r[0] == Home(homeCaption)
    ensures forall k :: 1 <= k < |r| ==> r[k] == CrumbAt(segs, k - 1 + Skipped(segs), labels, upper)
  {
    var skip := Skipped(segs);
    [Home(homeCaption)] + seq(|segs| - skip, j requires 0 <= j < |segs| - skip => CrumbAt(segs, j + skip, labels, upper))
  }

  /** The trail after the first `n` segments have been walked. */
  function TrailUpTo(segs: seq<string>, n: nat, homeCaption: string, labels: map<string, string>, upper: string -> string): seq<Crumb>
    requires n <= |segs|
  {
    var skip := Skipped(segs);
    var count := if n < skip then 0 else n - skip;
    [Home(homeCaption)] + seq(count, j requires 0 <= j < count => CrumbAt(segs, j + skip, labels, upper))
  }

  lemma TrailUpToStep(segs: seq<string>, n: nat, homeCaption: string, labels: map<string, string>, upper: string -> string)
    requires n < |segs|
    ensures TrailUpTo(segs, n + 1, homeCaption, labels, upper)
         == TrailUpTo(segs, n, homeCaption, labels, upper)
            + (if segs[n] == "admin" && n == 0 then [] else [CrumbAt(segs, n, labels, upper)])
  {
  }

  lemma TrailUpToAll(segs: seq<string>, homeCaption: string, labels: map<string, string>, upper: string -> string)
    ensures TrailUpTo(segs, |segs|, homeCaption, labels, upper) == Trail(segs, homeCaption, labels, upper)
  {
  }

  lemma PathOfStep(segs: seq<string>, n: nat)
    requires n < |segs|
    ensures PathOf(segs[..n + 1]) == PathOf(segs[..n]) + "/" + segs[n]
  {
    assert segs[..n + 1][..n] == segs[..n];
  }

  /** `generateBreadcrumbs`: walks the segments, extending the current path at every one and
      adding a crumb for every segment but a leading 'admin'. */
  method GenerateBreadcrumbs(path: string, homeCaption: string, labels: map<string, string>, upper: string -> string)
    returns (crumbs: seq<Crumb>)
    ensures crumbs == Trail(Segments(path), homeCaption, labels, upper)
  {
    var segs := Segments(path);
    crumbs := [Home(homeCaption)];
    var currentPath := "";
    var index := 0;
    while index < |segs|
      invariant 0 <= index <= |segs|
      invariant currentPath == PathOf(segs[..index])
      invariant crumbs == TrailUpTo(segs, index, homeCaption, labels, upper)
    {
      PathOfStep(segs, index);
      TrailUpToStep(segs, index, homeCaption, labels, upper);
      currentPath := currentPath + "/" + segs[index];
      var isLast := index == |segs| - 1;
      if !(segs[index] == "admin" && index == 0) {
        var crumb := Crumb(CrumbLabel(segs[index], labels, upper), if isLast then None else Some(currentPath), isLast);
        assert crumb == CrumbAt(segs, index, labels, upper);
        crumbs := crumbs + [crumb];
      }
      index := index + 1;
    }
    TrailUpToAll(segs, homeCaption, labels, upper);
  }

  /** Only the last crumb is current, and it alone has no link; every other crumb links to
      the path up to its segment. */
  lemma TrailLinks(segs: seq<string>, homeCaption: string, labels: map<string, string>, upper: string -> string, k: nat)
    requires 1 <= k < |Trail(segs, homeCaption, labels, upper)|
    ensures var r := Trail(segs, homeCaption, labels, upper);
      (r[k].current <==> k == |r| - 1) && (r[k].href.None? <==> k == |r| - 1)
    ensures var r := Trail(segs, homeCaption, labels, upper);
      k < |r| - 1 ==> r[k].href == Some(PathOf(segs[..k + Skipped(segs)]))
  {
  }

  /** The trail is shown only when there is more than Home, so the root and '/admin' show none. */
  predicate Shown(crumbs: seq<Crumb>)
  {
    |crumbs| > 1
  }

  /** `items || generateBreadcrumbs()`: given items win, even an empty list. */
  function Displayed(items: Option<seq<Crumb>>, generated: seq<Crumb>): (r: seq<Crumb>)
    ensures items.Some? ==> r == items.value
    ensures items.None? ==> r == generated
  {
    if items.Some? then items.value else generated
  }

  lemma ShownIffPastAdmin(segs: seq<string>, homeCaption: string, labels: map<string, string>, upper: string -> string)
    ensures Shown(Trail(segs, homeCaption, labels, upper)) <==> segs != [] && segs != ["admin"]
  {
    if |segs| >= 2 {
      assert segs != ["admin"];
    }
  }

  /** Splitting a cumulative path gives back its segments: a crumb's link leads to exactly the
      segments up to it. */
  lemma {:induction false} SegmentsOfPath(segs: seq<string>)
    requires forall i :: 0 <= i < |segs| ==> segs[i] != "" && '/' !in segs[i]
    ensures Text.Split(PathOf(segs), '/') == [""] + segs
    ensures Segments(PathOf(segs)) == segs
  {
    if segs != [] {
      var init, last := segs[..|segs| - 1], segs[|segs| - 1];
      SegmentsOfPath(init);
      assert PathOf(segs) == PathOf(init) + ['/'] + last;
      Text.SplitConcat(PathOf(init), '/', last);
      Text.SplitNoSeparator(last, '/');
      assert [""] + init + [last] == [""] + segs;
    }
    var keep := (s: string) => s != "";
    Paging.FilterKeepsAll(segs, keep);
    assert ([""] + segs)[1..] == segs;
  }

  /** A leading 'admin' gets no crumb but stays in the links of the crumbs after it; 'admin'
      further along is an ordinary crumb. */
  lemma AdminOnlySkippedFirst(homeCaption: string, labels: map<string, string>, upper: string -> string)
    ensures var r := Trail(["admin", "users", "edit"], homeCaption, labels, upper);
      |r| == 3 && r[1].href == Some("/admin/users") && r[2].current
    ensures var r := Trail(["users", "admin"], homeCaption, labels, upper);
      |r| == 3 && r[1].href == Some("/users") && r[2].caption == CrumbLabel("admin", labels, upper)
  {
    var s := ["admin", "users", "edit"];
    assert s[..2] == ["admin", "users"];
    assert PathOf(["admin"]) == "/admin" by {
      assert ["admin"][..0] == [];
    }
    assert PathOf(["admin", "users"]) == "/admin/users" by {
      assert ["admin", "users"][..1] == ["admin"];
    }
    var u := ["users", "admin"];
    assert u[..1] == ["users"];
    assert PathOf(["users"]) == "/users" by {
      assert ["users"][..0] == [];
    }
  }
}
