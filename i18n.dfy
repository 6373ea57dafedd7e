/** Translation lookup and the stored language and theme preferences (`useI18n`). */
module I18n {
  import opened Remote
  import Text
  import WebStorage

  /** A translation table: a phrase, or a nested table of entries. */
  datatype Entry = Phrase(text: string) | Group(entries: map<string, Entry>)

  const SystemName: string := "OxyForgotPassword"
  const SystemNameSlot: string := "{systemName}"

  /** Follows the key segments through nested tables; nothing as soon as a segment is missing
      or the walk reaches a phrase with segments left. */
  function Walk(e: Entry, keys: seq<string>): (r: Option<Entry>)
    ensures keys == [] ==> r == Some(e)
    ensures keys != [] && !(e.Group? && keys[0] in e.entries) ==> r.None?
    decreases |keys|
  {
    if keys == [] then Some(e)
    else if e.Group? && keys[0] in e.entries then Walk(e.entries[keys[0]], keys[1..])
    else None
  }

  /** `t(key)`: the phrase the dotted key leads to, with its first `{systemName}` filled in;
      the key itself when the key leads nowhere or to a table. */
  function Translate(table: Entry, key: string): (r: string)
  {
    var found := Walk(table, Text.Split(key, '.'));
    if found.Some? && found.value.Phrase? then Text.ReplaceFirst(found.value.text, SystemNameSlot, SystemName)
    else key
  }

  /** `t(key)` as the hook runs it: one segment at a time, giving the key back as soon as the
      current value is not a table holding the segment. */
  method LookUp(table: Entry, key: string) returns (r: string)
    ensures r == Translate(table, key)
  {
    var keys := Text.Split(key, '.');
    var value := table;
    var i := 0;
    while i < |keys|
      invariant 0 <= i <= |keys|
      invariant Walk(table, keys) == Walk(value, keys[i..])
    {
      if value.Group? && keys[i] in value.entries {
        assert keys[i..][1..] == keys[i + 1..];
        value := value.entries[keys[i]];
        i := i + 1;
      } else {
        return key;
      }
    }
    assert keys[i..] == [];
    if value.Phrase? {
      r := Text.ReplaceFirst(value.text, SystemNameSlot, SystemName);
    } else {
      r := key;
    }
  }

  /** A walk that meets a missing segment finds nothing, whatever segments follow. */
  lemma {:induction false} WalkStopsAtMissing(e: Entry, keys: seq<string>, j: nat, m: map<string, Entry>)
    requires j < |keys| && Walk(e, keys[..j]) == Some(Group(m)) && keys[j] !in m
    ensures Walk(e, keys) == None
    decreases j
  {
    if j == 0 {
      assert keys[..0] == [];
    } else {
      assert keys[..j][0] == keys[0];
      assert keys[..j][1..] == keys[1..][..j - 1];
      WalkStopsAtMissing(e.entries[keys[0]], keys[1..], j - 1, m);
    }
  }

  /** The outcomes of `t`: the key back for a missing or non-phrase entry, the phrase itself
      when it has no `{systemName}`, and only the first `{systemName}` replaced otherwise. */
  lemma TranslateCases(table: Entry, key: string, before: string, after: string)
    ensures Walk(table, Text.Split(key, '.')).None? ==> Translate(table, key) == key
    ensures Walk(table, Text.Split(key, '.')).Some? && Walk(table, Text.Split(key, '.')).value.Group? ==>
      Translate(table, key) == key
    ensures Walk(table, Text.Split(key, '.')) == Some(Phrase(before)) && !Text.Contains(before, SystemNameSlot) ==>
      Translate(table, key) == before
    ensures Walk(table, Text.Split(key, '.')) == Some(Phrase(before + SystemNameSlot + after)) && '{' !in before ==>
      Translate(table, key) == before + SystemName + after
  {
    if Walk(table, Text.Split(key, '.')) == Some(Phrase(before)) && !Text.Contains(before, SystemNameSlot) {
      Text.ReplaceFirstAbsent(before, SystemNameSlot, SystemName);
    }
    if Walk(table, Text.Split(key, '.')) == Some(Phrase(before + SystemNameSlot + after)) && '{' !in before {
      Text.ReplaceFirstAfter(before, SystemNameSlot, after, SystemName);
    }
  }

  /** A one-entry table leads the key "title" to its phrase. */
  lemma TitleWalk(phrase: string)
    ensures Walk(Group(map["title" := Phrase(phrase)]), Text.Split("title", '.')) == Some(Phrase(phrase))
  {
    Text.SplitNoSeparator("title", '.');
    assert ["title"][1..] == [];
  }

  /** A phrase naming the system twice gets the name only once. */
  lemma OnlyFirstSlotFilled()
    ensures Translate(Group(map["title" := Phrase("{systemName} - {systemName}")]), "title")
         == "OxyForgotPassword - {systemName}"
  {
    var rest := " - {systemName}";
    TwoSlots(rest);
    TitleWalk([] + SystemNameSlot + rest);
    Text.ReplaceFirstAfter([], SystemNameSlot, rest, SystemName);
  }

  lemma TwoSlots(rest: string)
    requires rest == " - {systemName}"
    ensures [] + SystemNameSlot + rest == "{systemName} - {systemName}"
    ensures [] + SystemName + rest == "OxyForgotPassword - {systemName}"
  {
  }

  datatype Language = PtBR | En
  datatype Theme = Light | Dark

  const LanguageKey: string := "oxyforgotpassword-language"
  const ThemeKey: string := "oxyforgotpassword-theme"

  function LanguageCode(l: Language): string
  {
    match l
    case PtBR => "pt-BR"
    case En => "en"
  }

  function ThemeCode(t: Theme): string
  {
    match t
    case Light => "light"
    case Dark => "dark"
  }

  /** A stored language is accepted only when it is one of the two codes. */
  function ParseLanguage(saved: Option<string>): (r: Option<Language>)
    ensures r.Some? <==> saved.Some? && (saved.value == "pt-BR" || saved.value == "en")
    ensures r.Some? ==> LanguageCode(r.value) == saved.value
  {
    if saved == Some("pt-BR") then Some(PtBR) else if saved == Some("en") then Some(En) else None
  }

  /** A stored theme is accepted only when it is 'light' or 'dark'. */
  function ParseTheme(saved: Option<string>): (r: Option<Theme>)
    ensures r.Some? <==> saved.Some? && (saved.value == "light" || saved.value == "dark")
    ensures r.Some? ==> ThemeCode(r.value) == saved.value
  {
    if saved == Some("light") then Some(Light) else if saved == Some("dark") then Some(Dark) else None
  }

  /** What `setLanguage`/`setTheme` store is read back by the next load as the same choice. */
  lemma StoredPreferenceRoundTrip(store: map<string, string>, l: Language, t: Theme)
    ensures ParseLanguage(WebStorage.Get(store[LanguageKey := LanguageCode(l)], LanguageKey)) == Some(l)
    ensures ParseTheme(WebStorage.Get(store[ThemeKey := ThemeCode(t)], ThemeKey)) == Some(t)
  {
  }

  /** The hook's state: the chosen language and theme, persisted in `localStorage`. */
  class Preferences {
    var language: Language
    var theme: Theme
    const storage: WebStorage.Stores

    constructor (storage: WebStorage.Stores)
      ensures language == PtBR && theme == Light && this.storage == storage
    {
      language, theme := PtBR, Light;
      this.storage := storage;
    }

    /** The mount effect: a valid stored language or theme replaces the current one; an
        invalid or missing one is ignored. */
    method LoadSaved()
      modifies this
      ensures var l := ParseLanguage(WebStorage.Get(storage.local, LanguageKey));
        language == (if l.Some? then l.value else old(language))
      ensures var t := ParseTheme(WebStorage.Get(storage.local, ThemeKey));
        theme == (if t.Some? then t.value else old(theme))
    {
      var savedLanguage := WebStorage.Get(storage.local, LanguageKey);
      var savedTheme := WebStorage.Get(storage.local, ThemeKey);
      var l := ParseLanguage(savedLanguage);
      if l.Some? {
        language := l.value;
      }
      var t := ParseTheme(savedTheme);
      if t.Some? {
        theme := t.value;
      }
    }

    method SetLanguage(l: Language)
      modifies this, storage
      ensures language == l && theme == old(theme)
      ensures storage.local == old(storage.local)[LanguageKey := LanguageCode(l)]
      ensures storage.session == old(storage.session)
    {
      language := l;
      storage.local := storage.local[LanguageKey := LanguageCode(l)];
    }

    method SetTheme(t: Theme)
      modifies this, storage
      ensures theme == t && language == old(language)
      ensures storage.local == old(storage.local)[ThemeKey := ThemeCode(t)]
      ensures storage.session == old(storage.session)
    {
      theme := t;
      storage.local := storage.local[ThemeKey := ThemeCode(t)];
    }

    /** `t(key)` against the table of the current language. */
    function T(tables: Language -> Entry, key: string): (r: string)
      reads this
      ensures Walk(tables(language), Text.Split(key, '.')).None? ==> r == key
    {
      Translate(tables(language), key)
    }
  }
}
