/** The two-column transfer list: per-side search and selection, and the moves between the
    columns, which the component reports to its owner. The item lists themselves belong to the
    owner and are passed in. */
module TransferList {
  import opened Remote
  import Text
  import Paging

  datatype TransferItem = TransferItem(id: string, caption: string, value: string, disabled: bool)

  datatype Direction = Left | Right

  /** An item matches when its lower-cased caption (the source's `label`) or value contains the lower-cased search. */
  predicate Matches(item: TransferItem, search: string, lower: string -> string)
  {
    Text.Contains(lower(item.caption), lower(search)) || Text.Contains(lower(item.value), lower(search))
  }

  function FilteredItems(items: seq<TransferItem>, search: string, lower: string -> string): (r: seq<TransferItem>)
    ensures |r| <= |items|
    ensures forall i :: 0 <= i < |r| ==> r[i] in items && Matches(r[i], search, lower)
    ensures forall i :: 0 <= i < |items| ==> (Matches(items[i], search, lower) ==> items[i] in r)
  {
    Paging.Filter(items, (item: TransferItem) => Matches(item, search, lower))
  }

  /** The items, in list order, whose ids are selected. */
  function ItemsWithIds(items: seq<TransferItem>, ids: seq<string>): (r: seq<TransferItem>)
    ensures |r| <= |items|
    ensures forall i :: 0 <= i < |r| ==> r[i] in items && r[i].id in ids
    ensures forall i :: 0 <= i < |items| ==> (items[i].id in ids ==> items[i] in r)
  {
    Paging.Filter(items, (item: TransferItem) => item.id in ids)
  }

  function Ids(items: seq<TransferItem>): (ids: seq<string>)
    ensures |ids| == |items|
    ensures forall i :: 0 <= i < |items| ==> ids[i] == items[i].id
  {
    seq(|items|, i requires 0 <= i < |items| => items[i].id)
  }

  /** One column's selection and search box. */
  class Side {
    var selected: seq<string>
    var search: string

    constructor ()
      ensures selected == [] && search == ""
    {
      selected, search := [], "";
    }

    /** `handle*Select`: toggles the id and reports the column's selected items. */
    method Select(id: string, items: seq<TransferItem>) returns (reported: seq<TransferItem>)
      modifies this
      ensures selected == Paging.Toggle(old(selected), id)
      ensures reported == ItemsWithIds(items, selected)
      ensures search == old(search)
    {
      selected := Paging.Toggle(selected, id);
      reported := ItemsWithIds(items, selected);
    }

    /** A click on an item: a disabled item is not selectable. */
    method Click(item: TransferItem, items: seq<TransferItem>) returns (reported: Option<seq<TransferItem>>)
      modifies this
      ensures item.disabled ==> selected == old(selected) && reported.None?
      ensures !item.disabled ==> selected == Paging.Toggle(old(selected), item.id)
      ensures !item.disabled ==> reported == Some(ItemsWithIds(items, selected))
      ensures search == old(search)
    {
      if item.disabled {
        reported := None;
      } else {
        var r := Select(item.id, items);
        reported := Some(r);
      }
    }

    /** `selectAll*`: exactly the ids the search shows, disabled items included. */
    method SelectAll(items: seq<TransferItem>, lower: string -> string) returns (reported: seq<TransferItem>)
      modifies this
      ensures selected == Ids(FilteredItems(items, search, lower))
      ensures reported == FilteredItems(items, search, lower)
      ensures search == old(search)
    {
      reported := FilteredItems(items, search, lower);
      selected := Ids(reported);
    }

    /** `deselectAll*`. */
    method DeselectAll() returns (reported: seq<TransferItem>)
      modifies this
      ensures selected == [] && reported == []
      ensures search == old(search)
    {
      selected := [];
      reported := [];
    }

    /** `moveRight` / `moveLeft`: the column's selected items in list order, hidden ones
        included; the selection is then cleared. Nothing happens when none is selected. */
    method Move(items: seq<TransferItem>) returns (moved: Option<seq<TransferItem>>)
      modifies this
      ensures ItemsWithIds(items, old(selected)) != [] ==>
        moved == Some(ItemsWithIds(items, old(selected))) && selected == []
      ensures ItemsWithIds(items, old(selected)) == [] ==> moved.None? && selected == old(selected)
      ensures search == old(search)
    {
      var chosen := ItemsWithIds(items, selected);
      if chosen != [] {
        moved := Some(chosen);
        selected := [];
      } else {
        moved := None;
      }
    }

    /** `moveAll*`: the items the search shows; nothing happens when it shows none. */
    method MoveAll(items: seq<TransferItem>, lower: string -> string) returns (moved: Option<seq<TransferItem>>)
      modifies this
      ensures FilteredItems(items, search, lower) != [] ==>
        moved == Some(FilteredItems(items, search, lower)) && selected == []
      ensures FilteredItems(items, search, lower) == [] ==> moved.None? && selected == old(selected)
      ensures search == old(search)
    {
      var shown := FilteredItems(items, search, lower);
      if shown != [] {
        moved := Some(shown);
        selected := [];
      } else {
        moved := None;
      }
    }
  }

  /** The component: the left column moves to the right and the other way round. */
  class Transfer {
    const left: Side
    const right: Side

    constructor ()
      ensures fresh(left) && fresh(right) && left != right
      ensures left.selected == [] && right.selected == [] && left.search == "" && right.search == ""
    {
      left := new Side();
      right := new Side();
    }

    method MoveRight(leftItems: seq<TransferItem>) returns (transfer: Option<(seq<TransferItem>, Direction)>)
      modifies left
      ensures ItemsWithIds(leftItems, old(left.selected)) != [] ==>
        transfer == Some((ItemsWithIds(leftItems, old(left.selected)), Right)) && left.selected == []
      ensures ItemsWithIds(leftItems, old(left.selected)) == [] ==> transfer.None? && left.selected == old(left.selected)
    {
      var moved := left.Move(leftItems);
      transfer := if moved.Some? then Some((moved.value, Right)) else None;
    }

    method MoveLeft(rightItems: seq<TransferItem>) returns (transfer: Option<(seq<TransferItem>, Direction)>)
      modifies right
      ensures ItemsWithIds(rightItems, old(right.selected)) != [] ==>
        transfer == Some((ItemsWithIds(rightItems, old(right.selected)), Left)) && right.selected == []
      ensures ItemsWithIds(rightItems, old(right.selected)) == [] ==> transfer.None? && right.selected == old(right.selected)
    {
      var moved := right.Move(rightItems);
      transfer := if moved.Some? then Some((moved.value, Left)) else None;
    }

    method MoveAllRight(leftItems: seq<TransferItem>, lower: string -> string) returns (transfer: Option<(seq<TransferItem>, Direction)>)
      modifies left
      ensures FilteredItems(leftItems, old(left.search), lower) != [] ==>
        transfer == Some((FilteredItems(leftItems, old(left.search), lower), Right)) && left.selected == []
      ensures FilteredItems(leftItems, old(left.search), lower) == [] ==> transfer.None? && left.selected == old(left.selected)
    {
      var moved := left.MoveAll(leftItems, lower);
      transfer := if moved.Some? then Some((moved.value, Right)) else None;
    }

    method MoveAllLeft(rightItems: seq<TransferItem>, lower: string -> string) returns (transfer: Option<(seq<TransferItem>, Direction)>)
      modifies right
      ensures FilteredItems(rightItems, old(right.search), lower) != [] ==>
        transfer == Some((FilteredItems(rightItems, old(right.search), lower), Left)) && right.selected == []
      ensures FilteredItems(rightItems, old(right.search), lower) == [] ==> transfer.None? && right.selected == old(right.selected)
    {
      var moved := right.MoveAll(rightItems, lower);
      transfer := if moved.Some? then Some((moved.value, Left)) else None;
    }
  }

  /** After "select all", moving the selection moves every item the search shows. */
  lemma SelectAllThenMove(items: seq<TransferItem>, search: string, lower: string -> string)
    ensures forall i :: 0 <= i < |items| ==>
      (items[i] in ItemsWithIds(items, Ids(FilteredItems(items, search, lower)))
       <== items[i] in FilteredItems(items, search, lower))
  {
    var shown := FilteredItems(items, search, lower);
    forall i | 0 <= i < |items| && items[i] in shown
      ensures items[i] in ItemsWithIds(items, Ids(shown))
    {
      var j :| 0 <= j < |shown| && shown[j] == items[i];
      assert Ids(shown)[j] == items[i].id;
    }
  }
}
