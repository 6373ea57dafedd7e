/** The variables modal: search over the catalog, the entries grouped by category under
    translated headings, and inserting a variable into the template being edited. */
module VariablesModal {
  import Text
  import Paging
  import Templates

  type Variable = Templates.Variable

  /** A variable matches when its lower-cased key, description or category contains the
      lower-cased term. */
  predicate Matches(v: Variable, term: string, lower: string -> string)
  {
    || Text.Contains(lower(v.key), lower(term))
    || Text.Contains(lower(v.description), lower(term))
    || Text.Contains(lower(v.category), lower(term))
  }

  function FilteredVariables(vs: seq<Variable>, term: string, lower: string -> string): (r: seq<Variable>)
    ensures forall i :: 0 <= i < |r| ==> r[i] in vs && Matches(r[i], term, lower)
    ensures forall i :: 0 <= i < |vs| && Matches(vs[i], term, lower) ==> vs[i] in r
  {
    Paging.Filter(vs, v => Matches(v, term, lower))
  }

  /** With an empty search (and lower-casing that keeps the empty text empty), every variable
      is listed. */
  lemma EmptySearchKeepsAll(vs: seq<Variable>, lower: string -> string)
    requires lower("") == ""
    ensures FilteredVariables(vs, "", lower) == vs
  {
    forall i | 0 <= i < |vs| ensures Matches(vs[i], "", lower) {
      assert "" <= lower(vs[i].key);
    }
    Paging.FilterKeepsAll(vs, v => Matches(v, "", lower));
  }

  /** The variables of one category, in list order. */
  function GroupOf(vs: seq<Variable>, category: string): (g: seq<Variable>)
    ensures |g| <= |vs|
  {
    if vs == [] then []
    else GroupOf(vs[..|vs| - 1], category) + (if vs[|vs| - 1].category == category then [vs[|vs| - 1]] else [])
  }

  /** The categories in order of first appearance: the order of `Object.entries` on the
      accumulator. */
  function Categories(vs: seq<Variable>): (cs: seq<string>)
  {
    if vs == [] then []
    else
      var init := Categories(vs[..|vs| - 1]);
      var c := vs[|vs| - 1].category;
      if c in init then init else init + [c]
  }

  /** Each category occurs once, and exactly the categories of the list occur. */
  lemma CategoriesFacts(vs: seq<Variable>)
    ensures var cs := Categories(vs);
            && (forall i, j :: 0 <= i < j < |cs| ==> cs[i] != cs[j])
            && (forall i :: 0 <= i < |vs| ==> vs[i].category in cs)
            && (forall c :: c in cs ==> exists i :: 0 <= i < |vs| && vs[i].category == c)
  {
    CategoriesDistinct(vs);
    CategoriesCover(vs);
    CategoriesOrigin(vs);
  }

  lemma {:induction false} CategoriesDistinct(vs: seq<Variable>)
    ensures forall i, j :: 0 <= i < j < |Categories(vs)| ==> Categories(vs)[i] != Categories(vs)[j]
  {
    if vs != [] {
      var init := vs[..|vs| - 1];
      CategoriesDistinct(init);
      var cs, c := Categories(init), vs[|vs| - 1].category;
      assert Categories(vs) == if c in cs then cs else cs + [c];
      if c !in cs {
        forall i, j | 0 <= i < j < |cs| + 1 ensures (cs + [c])[i] != (cs + [c])[j] {
          var xs := cs + [c];
          assert xs[i] == cs[i];
          if j == |cs| {
            assert cs[i] in cs && xs[j] == c;
          } else {
            assert xs[j] == cs[j];
          }
        }
      }
    }
  }

  lemma {:induction false} CategoriesCover(vs: seq<Variable>)
    ensures forall i :: 0 <= i < |vs| ==> vs[i].category in Categories(vs)
  {
    if vs != [] {
      var init := vs[..|vs| - 1];
      CategoriesCover(init);
      var cs, c := Categories(init), vs[|vs| - 1].category;
      assert Categories(vs) == if c in cs then cs else cs + [c];
      forall i | 0 <= i < |vs| ensures vs[i].category in Categories(vs) {
        if i < |init| {
          assert init[i] == vs[i];
        }
      }
    }
  }

  lemma {:induction false} CategoriesOrigin(vs: seq<Variable>)
    ensures forall c :: c in Categories(vs) ==> exists i :: 0 <= i < |vs| && vs[i].category == c
  {
    if vs != [] {
      var init := vs[..|vs| - 1];
      CategoriesOrigin(init);
      forall c | c in Categories(vs) ensures exists i :: 0 <= i < |vs| && vs[i].category == c {
        if c in Categories(init) {
          var i :| 0 <= i < |init| && init[i].category == c;
          assert vs[i].category == c;
        } else {
          assert vs[|vs| - 1].category == c;
        }
      }
    }
  }

  lemma GroupStep(vs: seq<Variable>, i: nat, c: string)
    requires i < |vs|
    ensures GroupOf(vs[..i + 1], c) == GroupOf(vs[..i], c) + (if vs[i].category == c then [vs[i]] else [])
    ensures Categories(vs[..i + 1])
         == Categories(vs[..i]) + (if vs[i].category in Categories(vs[..i]) then [] else [vs[i].category])
  {
    assert vs[..i + 1][..i] == vs[..i];
  }

  /** A group holds exactly the variables of its category. */
  lemma {:induction false} GroupMembers(vs: seq<Variable>, category: string)
    ensures forall i :: 0 <= i < |GroupOf(vs, category)| ==>
      GroupOf(vs, category)[i] in vs && GroupOf(vs, category)[i].category == category
    ensures forall i :: 0 <= i < |vs| && vs[i].category == category ==> vs[i] in GroupOf(vs, category)
  {
    if vs != [] {
      GroupMembers(vs[..|vs| - 1], category);
      assert vs == vs[..|vs| - 1] + [vs[|vs| - 1]];
    }
  }

  /** A category that does not occur has an empty group. */
  lemma NoGroupForAbsent(vs: seq<Variable>, c: string)
    requires c !in Categories(vs)
    ensures GroupOf(vs, c) == []
  {
    GroupMembers(vs, c);
    CategoriesFacts(vs);
  }

  /** Pushing the next variable onto its category's group keeps every group the filter of
      the prefix read so far. */
  lemma GroupsStep(vs: seq<Variable>, i: nat, groups: map<string, seq<Variable>>)
    requires i < |vs|
    requires forall c :: c in groups ==> groups[c] == GroupOf(vs[..i], c)
    ensures var v := vs[i];
      var next := groups[v.category := (if v.category in groups then groups[v.category] else []) + [v]];
      forall c :: c in next && c != v.category ==> next[c] == GroupOf(vs[..i + 1], c)
  {
    forall c | c in groups && c != vs[i].category
      ensures groups[c] == GroupOf(vs[..i + 1], c)
    {
      GroupStep(vs, i, c);
    }
  }

  /** The `reduce` that pushes each variable onto its category's array. */
  method GroupVariables(vs: seq<Variable>) returns (groups: map<string, seq<Variable>>, order: seq<string>)
    ensures order == Categories(vs)
    ensures forall c :: c in groups <==> c in order
    ensures forall c :: c in groups ==> groups[c] == GroupOf(vs, c)
  {
    groups, order := map[], [];
    var i := 0;
    while i < |vs|
      invariant 0 <= i <= |vs|
      invariant order == Categories(vs[..i])
      invariant forall c :: c in groups <==> c in order
      invariant forall c :: c in groups ==> groups[c] == GroupOf(vs[..i], c)
    {
      var v := vs[i];
      var current := if v.category in groups then groups[v.category] else [];
      if v.category !in groups {
        NoGroupForAbsent(vs[..i], v.category);
        order := order + [v.category];
      }
      GroupStep(vs, i, v.category);
      GroupsStep(vs, i, groups);
      groups := groups[v.category := current + [v]];
      i := i + 1;
    }
    assert vs[..i] == vs;
  }

  /** Each group is the order-preserving filter of the list by that category. */
  lemma {:induction false} GroupIsFilter(vs: seq<Variable>, category: string)
    ensures GroupOf(vs, category) == Paging.Filter(vs, (v: Variable) => v.category == category)
  {
    if vs != [] {
      var init := vs[..|vs| - 1];
      GroupIsFilter(init, category);
      assert init + [vs[|vs| - 1]] == vs;
      Paging.FilterAppend(init, vs[|vs| - 1], (v: Variable) => v.category == category);
    }
  }

  /** The sizes of the groups, over the listed categories. */
  function GroupSizes(vs: seq<Variable>, cs: seq<string>): nat
  {
    if cs == [] then 0 else |GroupOf(vs, cs[0])| + GroupSizes(vs, cs[1..])
  }

  function Count(cs: seq<string>, c: string): nat
  {
    if cs == [] then 0 else (if cs[0] == c then 1 else 0) + Count(cs[1..], c)
  }

  lemma {:induction false} GroupSizesExtend(vs: seq<Variable>, x: Variable, cs: seq<string>)
    ensures GroupSizes(vs + [x], cs) == GroupSizes(vs, cs) + Count(cs, x.category)
  {
    if cs != [] {
      assert (vs + [x])[..|vs + [x]| - 1] == vs;
      GroupSizesExtend(vs, x, cs[1..]);
    }
  }

  lemma {:induction false} GroupSizesAppend(vs: seq<Variable>, cs: seq<string>, c: string)
    ensures GroupSizes(vs, cs + [c]) == GroupSizes(vs, cs) + |GroupOf(vs, c)|
  {
    if cs != [] {
      assert (cs + [c])[1..] == cs[1..] + [c];
      GroupSizesAppend(vs, cs[1..], c);
    } else {
      assert [] + [c] == [c];
    }
  }

  lemma {:induction false} CountDistinct(cs: seq<string>, c: string)
    requires forall i, j :: 0 <= i < j < |cs| ==> cs[i] != cs[j]
    ensures Count(cs, c) == if c in cs then 1 else 0
  {
    if cs != [] {
      CountDistinct(cs[1..], c);
      if cs[0] == c {
        assert c !in cs[1..];
      }
    }
  }

  /** Every variable is in exactly one group: the group sizes add up to the number of
      filtered variables. */
  lemma {:induction false} GroupsPartition(vs: seq<Variable>)
    ensures GroupSizes(vs, Categories(vs)) == |vs|
  {
    if vs != [] {
      var init, x := vs[..|vs| - 1], vs[|vs| - 1];
      assert init + [x] == vs;
      GroupsPartition(init);
      var cs := Categories(init);
      CategoriesFacts(init);
      GroupSizesExtend(init, x, cs);
      CountDistinct(cs, x.category);
      if x.category !in cs {
        GroupSizesAppend(vs, cs, x.category);
        GroupSizesExtend(init, x, cs);
        NoGroupForAbsent(init, x.category);
      }
    }
  }

  /** The heading of a category; any other category, such as 'time', is shown as it is. */
  function CategoryLabel(category: string): (heading: string)
    ensures category == "user" ==> heading == "Usuário"
    ensures category == "reset" ==> heading == "Reset"
    ensures category == "system" ==> heading == "Sistema"
    ensures category == "email" ==> heading == "Email"
    ensures category == "message" ==> heading == "Mensagem"
    ensures category == "date" ==> heading == "Data/Hora"
    ensures category !in {"user", "reset", "system", "email", "message", "date"} ==> heading == category
  {
    if category == "user" then "Usuário"
    else if category == "reset" then "Reset"
    else if category == "system" then "Sistema"
    else if category == "email" then "Email"
    else if category == "message" then "Mensagem"
    else if category == "date" then "Data/Hora"
    else category
  }

  /** The modal's own state and what it hands to its parent. */
  class Modal {
    var isOpen: bool
    var searchTerm: string
    /** The usages passed to `onInsertVariable`, oldest first. */
    var inserted: seq<string>

    constructor ()
      ensures isOpen && searchTerm == "" && inserted == []
    {
      isOpen, searchTerm, inserted := true, "", [];
    }

    /** `handleInsert`: the variable's usage goes to the editor, then the modal closes. */
    method HandleInsert(v: Variable)
      modifies this
      ensures inserted == old(inserted) + [v.usage]
      ensures !isOpen && searchTerm == old(searchTerm)
    {
      inserted := inserted + [v.usage];
      isOpen := false;
    }
  }
}
