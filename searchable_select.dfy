/** The searchable drop-down: option search, the shown choice, the nine-row cap and the
    footer count. */
module SearchableSelect {
  import opened Remote
  import Text
  import Paging

  datatype SelectOption = SelectOption(value: string, caption: string)

  /** The list hides the empty-valued prompt option and searches captions only. */
  predicate Listed(o: SelectOption, search: string, lower: string -> string)
  {
    o.value != "" && Text.Contains(lower(o.caption), lower(search))
  }

  function FilteredOptions(options: seq<SelectOption>, search: string, lower: string -> string): (r: seq<SelectOption>)
    ensures |r| <= |options|
    ensures forall i :: 0 <= i < |r| ==> r[i] in options && r[i].value != "" && Text.Contains(lower(r[i].caption), lower(search))
    ensures forall i :: 0 <= i < |options| ==> (Listed(options[i], search, lower) ==> options[i] in r)
  {
    Paging.Filter(options, (o: SelectOption) => Listed(o, search, lower))
  }

  /** `options.find(o => o.value === value)`. */
  function FindOption(options: seq<SelectOption>, value: string): (r: Option<SelectOption>)
    ensures r.None? <==> forall i :: 0 <= i < |options| ==> options[i].value != value
    ensures r.Some? ==> r.value.value == value
    ensures r.Some? ==>
      exists j :: 0 <= j < |options| && options[j] == r.value && (forall i :: 0 <= i < j ==> options[i].value != value)
  {
    if options == [] then None
    else if options[0].value == value then Some(options[0])
    else
      var rest := FindOption(options[1..], value);
      if rest.Some? then
        ghost var j :| 0 <= j < |options[1..]| && options[1..][j] == rest.value
          && (forall i :: 0 <= i < j ==> options[1..][i].value != value);
        assert options[j + 1] == rest.value;
        rest
      else rest
  }

  /** The button's text: "Carregando..." while loading, otherwise the chosen option's caption,
      or the placeholder when there is none (or its caption is empty). */
  function ButtonText(options: seq<SelectOption>, value: string, placeholder: string, loading: bool): (text: string)
    ensures loading ==> text == "Carregando..."
    ensures !loading && FindOption(options, value).None? ==> text == placeholder
    ensures !loading && FindOption(options, value).Some? ==> text == OrElse(FindOption(options, value).value.caption, placeholder)
  {
    if loading then "Carregando..."
    else
      var chosen := FindOption(options, value);
      if chosen.Some? then OrElse(chosen.value.caption, placeholder) else placeholder
  }

  /** At most nine options are rendered, the first ones. */
  const MaxShown: nat := 9

  function ShownOptions(filtered: seq<SelectOption>): (shown: seq<SelectOption>)
    ensures |shown| == if |filtered| <= MaxShown then |filtered| else MaxShown
    ensures shown <= filtered
  {
    if |filtered| <= MaxShown then filtered else filtered[..MaxShown]
  }

  /** The footer: "Mostrando 9 de N resultados" above nine, otherwise the count with singular or
      plural wording. */
  function FooterText(n: nat): (text: string)
  {
    if n > MaxShown then "Mostrando 9 de " + Text.NatToString(n) + " resultados"
    else
      var s := if n != 1 then "s" else "";
      Text.NatToString(n) + " resultado" + s + " encontrado" + s
  }

  lemma FooterWording(n: nat)
    ensures n > MaxShown ==> FooterText(n) == "Mostrando 9 de " + Text.NatToString(n) + " resultados"
    ensures n == 1 ==> FooterText(n) == "1 resultado encontrado"
    ensures n <= MaxShown && n != 1 ==> FooterText(n)[|FooterText(n)| - 1] == 's'
    ensures n <= MaxShown ==> Text.NatToString(n) <= FooterText(n)
  {
    if n == 1 {
      FooterSingular();
    } else if n <= MaxShown {
      FooterPlural(n);
    }
  }

  lemma FooterSingular()
    ensures FooterText(1) == "1 resultado encontrado"
  {
    SingularWords();
    OneWritten();
    assert "1" + " resultado encontrado" == "1 resultado encontrado";
  }

  lemma SingularWords()
    ensures FooterText(1) == Text.NatToString(1) + " resultado encontrado"
  {
    assert FooterText(1) == Text.NatToString(1) + (" resultado" + "" + " encontrado" + "");
    assert " resultado" + "" + " encontrado" + "" == " resultado encontrado";
  }

  lemma OneWritten()
    ensures Text.NatToString(1) == "1"
  {
    assert Text.NatToString(1) == [Text.Digit(1)];
  }

  lemma FooterPlural(n: nat)
    requires n <= MaxShown && n != 1
    ensures FooterText(n) == Text.NatToString(n) + " resultados encontrados"
    ensures FooterText(n)[|FooterText(n)| - 1] == 's'
    ensures Text.NatToString(n) <= FooterText(n)
  {
    var text := Text.NatToString(n) + " resultados encontrados";
    assert FooterText(n) == text;
  }

  /** The drop-down's own state; the value is the owner's. */
  class Select {
    var isOpen: bool
    var searchTerm: string

    constructor ()
      ensures !isOpen && searchTerm == ""
    {
      isOpen, searchTerm := false, "";
    }

    /** The button opens or closes the list unless the control is disabled. */
    method ToggleOpen(disabled: bool)
      modifies this
      ensures isOpen == (if disabled then old(isOpen) else !old(isOpen))
      ensures searchTerm == old(searchTerm)
    {
      if !disabled {
        isOpen := !isOpen;
      }
    }

    method SetSearch(term: string)
      modifies this
      ensures searchTerm == term && isOpen == old(isOpen)
    {
      searchTerm := term;
    }

    /** `handleSelect`: emits the chosen value, closes the list and clears the search. */
    method HandleSelect(optionValue: string) returns (emitted: string)
      modifies this
      ensures emitted == optionValue
      ensures !isOpen && searchTerm == ""
    {
      emitted := optionValue;
      isOpen := false;
      searchTerm := "";
    }

    /** `handleClose` and a click on the overlay: closes the list and clears the search. */
    method HandleClose()
      modifies this
      ensures !isOpen && searchTerm == ""
    {
      isOpen := false;
      searchTerm := "";
    }

    /** The options rendered while the list is open. */
    function Rendered(options: seq<SelectOption>, loading: bool, lower: string -> string): (shown: seq<SelectOption>)
      reads this
      ensures !isOpen || loading ==> shown == []
      ensures |shown| <= MaxShown
      ensures forall i :: 0 <= i < |shown| ==> shown[i] in options && Listed(shown[i], searchTerm, lower)
    {
      if isOpen && !loading then ShownOptions(FilteredOptions(options, searchTerm, lower)) else []
    }
  }
}
