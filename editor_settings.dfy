/** The editor preferences kept in `localStorage`: three switches, the tab size and the
    editor mode. A missing switch or tab size is read as its default, which is then written
    back. */
module EditorSettings {
  import opened Common
  import opened JsText
  import opened WebStorage

  const WordWrapKey: string := "editorWordWrap"
  const ShowInvisiblesKey: string := "editorShowInvisibles"
  const SoftTabsKey: string := "editorUseSoftTabs"
  const TabSizeKey: string := "editorTabSize"
  const EditorModeKey: string := "editorMode"

  const DefaultWordWrap: bool := false
  const DefaultShowInvisibles: bool := false
  const DefaultSoftTabs: bool := true
  const DefaultTabSize: int := 4
  const DefaultEditorMode: string := "ace/mode/plain_text"

  /** `String(b)`: how `setItem` stores a boolean. */
  function FlagText(b: bool): string {
    if b then "true" else "false"
  }

  /** A stored switch: every string except "false" reads as on. */
  predicate DecodeFlag(s: string) {
    s != "false"
  }

  /** A setting as a getter reads it, with the storage after the read. */
  datatype Reading<T> = Reading(value: T, items: map<string, string>)

  /** The getter of a switch stored under `key` with default `default`. */
  function ReadFlag(items: map<string, string>, key: string, default: bool): (r: Reading<bool>)
    ensures key !in items ==> r == Reading(default, items[key := FlagText(default)])
    ensures key in items ==> r == Reading(DecodeFlag(items[key]), items)
    ensures key in r.items && AgreeOutside(items, r.items, {key})
  {
    match Item(items, key)
    case None => Reading(default, items[key := FlagText(default)])
    case Some(s) => Reading(DecodeFlag(s), items)
  }

  /** Setting a switch and reading it back gives the value set, and the read changes nothing. */
  lemma FlagRoundTrip(items: map<string, string>, key: string, default: bool, b: bool)
    ensures ReadFlag(items[key := FlagText(b)], key, default) == Reading(b, items[key := FlagText(b)])
  {
  }

  /** Reading a switch twice: the second read gives the same value and changes nothing. */
  lemma {:induction false} ReadFlagIsIdempotent(items: map<string, string>, key: string, default: bool)
    ensures var first := ReadFlag(items, key, default);
      ReadFlag(first.items, key, default) == first
  {
    var first := ReadFlag(items, key, default);
    if key !in items {
      assert first.items[key] == FlagText(default);
    }
  }

  /** The getter of the tab size: a missing entry reads as 4, which is written back; a stored
      one is read by `parseInt`, and `None` is NaN. */
  function ReadTabSize(items: map<string, string>): (r: Reading<Option<int>>)
    ensures TabSizeKey !in items ==> r == Reading(Some(DefaultTabSize), items[TabSizeKey := IntToString(DefaultTabSize)])
    ensures TabSizeKey in items ==> r == Reading(ParseInt(items[TabSizeKey]), items)
  {
    match Item(items, TabSizeKey)
    case None => Reading(Some(DefaultTabSize), items[TabSizeKey := IntToString(DefaultTabSize)])
    case Some(s) => Reading(ParseInt(s), items)
  }

  /** `setTabSizeSetting` accepts a tab size greater than 1 only. */
  predicate TabSizeAccepted(n: int) {
    n > 1
  }

  /** Setting an accepted tab size and reading it back gives that size. */
  lemma {:induction false} TabSizeRoundTrip(items: map<string, string>, n: int)
    requires TabSizeAccepted(n)
    ensures var after := items[TabSizeKey := IntToString(n)];
      ReadTabSize(after) == Reading(Some(n), after)
  {
    ParseIntOfIntToString(n);
  }

  /** The default size is one the setter accepts, and once written back it reads as itself. */
  lemma {:induction false} DefaultTabSizeReadsBack(items: map<string, string>)
    requires TabSizeKey !in items
    ensures TabSizeAccepted(DefaultTabSize)
    ensures var first := ReadTabSize(items);
      first.value == Some(DefaultTabSize) && ReadTabSize(first.items) == first
  {
    ParseIntOfIntToString(DefaultTabSize);
  }

  /** A tab size of 1 is refused, although the setter's documentation allows it and the page
      that calls the setter clamps sizes to at least 1. */
  lemma TabSizeOneIsRefused()
    ensures !TabSizeAccepted(1)
  {
  }

  /** The getter of the editor mode, as it should be: a missing entry reads as plain text,
      which is written back. */
  function ReadEditorMode(items: map<string, string>): (r: Reading<string>)
    ensures EditorModeKey !in items ==> r == Reading(DefaultEditorMode, items[EditorModeKey := DefaultEditorMode])
    ensures EditorModeKey in items ==> r == Reading(items[EditorModeKey], items)
  {
    match Item(items, EditorModeKey)
    case None => Reading(DefaultEditorMode, items[EditorModeKey := DefaultEditorMode])
    case Some(s) => Reading(s, items)
  }

  /** The getter of the editor mode as written: a missing entry makes it call a method the
      class does not have, which throws a `TypeError` before anything is stored. */
  function ReadEditorModeAsWritten(items: map<string, string>): (r: Result<Reading<string>, string>)
    ensures EditorModeKey !in items ==> r.Err?
    ensures EditorModeKey in items ==> r == Ok(ReadEditorMode(items))
  {
    match Item(items, EditorModeKey)
    case None => Err("TypeError")
    case Some(s) => Ok(Reading(s, items))
  }

  /** On a first visit, with no mode stored, the getter as written throws where the intended
      one gives plain text. */
  lemma FirstVisitModeThrows()
    ensures ReadEditorModeAsWritten(map[]).Err?
    ensures ReadEditorMode(map[]).value == DefaultEditorMode
  {
  }

  /** Setting a mode and reading it back gives the mode set. */
  lemma ModeRoundTrip(items: map<string, string>, mode: string)
    ensures ReadEditorMode(items[EditorModeKey := mode]) == Reading(mode, items[EditorModeKey := mode])
  {
  }

  /** An entry of the mode list: its label (the name shown; the field is `title` because `label`
      is a reserved word in Dafny), and the mode the editor is set to. */
  datatype EditorMode = EditorMode(title: string, value: string)

  /** `getEditorModesList`. */
  function EditorModesList(): (modes: seq<EditorMode>)
    ensures |modes| == 32
  {
    [
      EditorMode("AutoHotkey", "ace/mode/autohotkey"),
      EditorMode("C++", "ace/mode/c_cpp"),
      EditorMode("CoffeeScript", "ace/mode/coffee"),
      EditorMode("C#", "ace/mode/csharp"),
      EditorMode("CSS", "ace/mode/css"),
      EditorMode("Fortran", "ace/mode/fortran"),
      EditorMode("Go", "ace/mode/golang"),
      EditorMode("HTML", "ace/mode/html"),
      EditorMode("Java", "ace/mode/java"),
      EditorMode("JavaScript", "ace/mode/javascript"),
      EditorMode("JSON", "ace/mode/json"),
      EditorMode("JSX", "ace/mode/jsx"),
      EditorMode("LESS", "ace/mode/less"),
      EditorMode("Lua", "ace/mode/lua"),
      EditorMode("Markdown", "ace/mode/markdown"),
      EditorMode("MATLAB", "ace/mode/matlab"),
      EditorMode("Objective-C", "ace/mode/objectivec"),
      EditorMode("Pascal", "ace/mode/pascal"),
      EditorMode("Perl", "ace/mode/perl"),
      EditorMode("PHP", "ace/mode/php"),
      EditorMode("Plain Text", "ace/mode/plain_text"),
      EditorMode("Python", "ace/mode/python"),
      EditorMode("Ruby", "ace/mode/ruby"),
      EditorMode("Rust", "ace/mode/rust"),
      EditorMode("SASS", "ace/mode/sass"),
      EditorMode("Scala", "ace/mode/scala"),
      EditorMode("SCSS", "ace/mode/scss"),
      EditorMode("SQL", "ace/mode/sql"),
      EditorMode("Swift", "ace/mode/swift"),
      EditorMode("TypeScript", "ace/mode/typescript"),
      EditorMode("XML", "ace/mode/xml"),
      EditorMode("YAML", "ace/mode/yaml")
    ]
  }

  /** Each mode is listed once, and the default mode is among them. */
  lemma ModesAreDistinct()
    ensures var modes := EditorModesList();
      (forall i, j :: 0 <= i < j < |modes| ==> modes[i].value != modes[j].value) &&
      (exists i :: 0 <= i < |modes| && modes[i].value == DefaultEditorMode)
  {
    assert EditorModesList()[20].value == DefaultEditorMode;
  }
  /** `setWordWrapSetting`. */
  method SetWordWrapSetting(local: Storage, b: bool)
    modifies local
    ensures local.items == old(local.items)[WordWrapKey := FlagText(b)]
  {
    local.SetItem(WordWrapKey, FlagText(b));
  }

  /** `getWordWrapSetting`. */
  method GetWordWrapSetting(local: Storage) returns (b: bool)
    modifies local
    ensures Reading(b, local.items) == ReadFlag(old(local.items), WordWrapKey, DefaultWordWrap)
  {
    var stored := Item(local.items, WordWrapKey);
    if stored.None? {
      b := DefaultWordWrap;
      SetWordWrapSetting(local, b);
    } else {
      b := DecodeFlag(stored.value);
    }
  }

  /** `setShowInvisiblesSetting`. */
  method SetShowInvisiblesSetting(local: Storage, b: bool)
    modifies local
    ensures local.items == old(local.items)[ShowInvisiblesKey := FlagText(b)]
  {
    local.SetItem(ShowInvisiblesKey, FlagText(b));
  }

  /** `getShowInvisiblesSetting`. */
  method GetShowInvisiblesSetting(local: Storage) returns (b: bool)
    modifies local
    ensures Reading(b, local.items) == ReadFlag(old(local.items), ShowInvisiblesKey, DefaultShowInvisibles)
  {
    var stored := Item(local.items, ShowInvisiblesKey);
    if stored.None? {
      b := DefaultShowInvisibles;
      SetShowInvisiblesSetting(local, b);
    } else {
      b := DecodeFlag(stored.value);
    }
  }

  /** `setSoftTabsSetting`. */
  method SetSoftTabsSetting(local: Storage, b: bool)
    modifies local
    ensures local.items == old(local.items)[SoftTabsKey := FlagText(b)]
  {
    local.SetItem(SoftTabsKey, FlagText(b));
  }

  /** `getSoftTabsSetting`. */
  method GetSoftTabsSetting(local: Storage) returns (b: bool)
    modifies local
    ensures Reading(b, local.items) == ReadFlag(old(local.items), SoftTabsKey, DefaultSoftTabs)
  {
    var stored := Item(local.items, SoftTabsKey);
    if stored.None? {
      b := DefaultSoftTabs;
      SetSoftTabsSetting(local, b);
    } else {
      b := DecodeFlag(stored.value);
    }
  }

  /** The `RangeError` of `setTabSizeSetting`. */
  datatype TabSizeFailure = TabSizeTooSmall

  /** `setTabSizeSetting`: a refused size leaves the storage alone. */
  method SetTabSizeSetting(local: Storage, n: int) returns (r: Option<TabSizeFailure>)
    modifies local
    ensures r.None? <==> TabSizeAccepted(n)
    ensures r.Some? ==> local.items == old(local.items)
    ensures r.None? ==> local.items == old(local.items)[TabSizeKey := IntToString(n)]
  {
    if n <= 1 {
      return Some(TabSizeTooSmall);
    }
    local.SetItem(TabSizeKey, IntToString(n));
    r := None;
  }

  /** `getTabSizeSetting`. */
  method GetTabSizeSetting(local: Storage) returns (n: Option<int>)
    modifies local
    ensures Reading(n, local.items) == ReadTabSize(old(local.items))
  {
    var stored := Item(local.items, TabSizeKey);
    if stored.None? {
      n := Some(DefaultTabSize);
      var refused := SetTabSizeSetting(local, DefaultTabSize);
    } else {
      n := ParseInt(stored.value);
    }
  }

  /** `getEditorModeSetting` as written: the stored mode, or the `TypeError` when none is
      stored; nothing is written. */
  method GetEditorModeSettingAsWritten(local: Storage) returns (r: Result<string, string>)
    ensures r.Ok? <==> EditorModeKey in local.items
    ensures r.Ok? ==> r.value == local.items[EditorModeKey]
  {
    var stored := Item(local.items, EditorModeKey);
    if stored.None? {
      return Err("TypeError");
    }
    r := Ok(stored.value);
  }

  /** `getEditorModeSetting` with the default written back through `setEditorModeSetting`. */
  method GetEditorModeSetting(local: Storage) returns (mode: string)
    modifies local
    ensures Reading(mode, local.items) == ReadEditorMode(old(local.items))
  {
    var stored := Item(local.items, EditorModeKey);
    if stored.None? {
      mode := DefaultEditorMode;
      SetEditorModeSetting(local, mode);
    } else {
      mode := stored.value;
    }
  }

  /** `setEditorModeSetting`. */
  method SetEditorModeSetting(local: Storage, mode: string)
    modifies local
    ensures local.items == old(local.items)[EditorModeKey := mode]
  {
    local.SetItem(EditorModeKey, mode);
  }
}
