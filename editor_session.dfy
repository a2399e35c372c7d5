/** The editor's unsaved work, kept in `sessionStorage`: the title, the content and the cursor
    position, saved as strings and read back with defaults. */
module EditorSession {
  import opened Common
  import opened JsText
  import opened WebStorage

  const TitleKey: string := "editorTitle"
  const ContentKey: string := "editorContent"
  const CursorRowKey: string := "editorCursorRow"
  const CursorColKey: string := "editorCursorCol"

  /** The state of the editor. The cursor position is an integer number. */
  datatype EditorState = EditorState(title: string, content: string, cursorRow: int, cursorCol: int)

  /** The `RangeError`s of `saveEditorSession`. */
  datatype SaveFailure = CursorRowNegative | CursorColNegative

  /** The checks of `saveEditorSession`, the row first. */
  function SaveCheck(s: EditorState): (r: Option<SaveFailure>)
    ensures r.None? <==> s.cursorRow >= 0 && s.cursorCol >= 0
    ensures s.cursorRow < 0 ==> r == Some(CursorRowNegative)
    ensures s.cursorRow >= 0 && s.cursorCol < 0 ==> r == Some(CursorColNegative)
  {
    if s.cursorRow < 0 then Some(CursorRowNegative)
    else if s.cursorCol < 0 then Some(CursorColNegative)
    else None
  }

  /** The storage after a save: the four keys hold the state, the numbers as their numerals,
      and no other key changes. */
  function Saved(items: map<string, string>, s: EditorState): (r: map<string, string>)
    ensures Item(r, TitleKey) == Some(s.title) && Item(r, ContentKey) == Some(s.content)
    ensures Item(r, CursorRowKey) == Some(IntToString(s.cursorRow))
    ensures Item(r, CursorColKey) == Some(IntToString(s.cursorCol))
    ensures AgreeOutside(items, r, {TitleKey, ContentKey, CursorRowKey, CursorColKey})
  {
    items[TitleKey := s.title][ContentKey := s.content]
      [CursorRowKey := IntToString(s.cursorRow)][CursorColKey := IntToString(s.cursorCol)]
  }

  /** `getItem(key) || ''`: a missing entry reads as the empty string. */
  function TextOrEmpty(v: Option<string>): (t: string)
    ensures v.Some? ==> t == v.value
    ensures v.None? ==> t == ""
  {
    if v.Some? && v.value != "" then v.value else ""
  }

  /** `parseInt(getItem(key)) || 0`: a missing or unreadable entry reads as 0. */
  function NumberOrZero(v: Option<string>): (n: int)
    ensures v.Some? && ParseInt(v.value).Some? ==> n == ParseInt(v.value).value
    ensures v.None? || ParseInt(v.value).None? ==> n == 0
  {
    if v.None? then 0
    else match ParseInt(v.value)
      case None => 0
      case Some(k) => if k != 0 then k else 0
  }

  /** The state `restoreEditorSession` reads from `items`. */
  function Restored(items: map<string, string>): (s: EditorState)
    ensures s.title == (if TitleKey in items then items[TitleKey] else "")
    ensures s.content == (if ContentKey in items then items[ContentKey] else "")
    ensures CursorRowKey !in items ==> s.cursorRow == 0
    ensures CursorColKey !in items ==> s.cursorCol == 0
  {
    EditorState(TextOrEmpty(Item(items, TitleKey)), TextOrEmpty(Item(items, ContentKey)),
                NumberOrZero(Item(items, CursorRowKey)), NumberOrZero(Item(items, CursorColKey)))
  }

  /** Restoring what was saved gives back the saved state. */
  lemma {:induction false} RestoreAfterSave(items: map<string, string>, s: EditorState)
    requires SaveCheck(s).None?
    ensures Restored(Saved(items, s)) == s
  {
    ParseIntOfIntToString(s.cursorRow);
    ParseIntOfIntToString(s.cursorCol);
  }

  /** With nothing saved, the editor starts empty with the cursor at the origin. */
  lemma RestoreOfNothing(items: map<string, string>)
    requires TitleKey !in items && ContentKey !in items && CursorRowKey !in items && CursorColKey !in items
    ensures Restored(items) == EditorState("", "", 0, 0)
  {
  }

  /** A rejected save leaves the storage alone; an accepted one stores the state. */
  method SaveEditorSession(session: Storage, s: EditorState) returns (r: Option<SaveFailure>)
    modifies session
    ensures r == SaveCheck(s)
    ensures r.Some? ==> session.items == old(session.items)
    ensures r.None? ==> session.items == Saved(old(session.items), s)
  {
    if s.cursorRow < 0 {
      return Some(CursorRowNegative);
    } else if s.cursorCol < 0 {
      return Some(CursorColNegative);
    }
    session.SetItem(TitleKey, s.title);
    session.SetItem(ContentKey, s.content);
    session.SetItem(CursorRowKey, IntToString(s.cursorRow));
    session.SetItem(CursorColKey, IntToString(s.cursorCol));
    r := None;
  }

  /** `restoreEditorSession`: the state is filled field by field from the storage. */
  method RestoreEditorSession(session: Storage) returns (s: EditorState)
    ensures s == Restored(session.items)
  {
    var title := TextOrEmpty(Item(session.items, TitleKey));
    var content := TextOrEmpty(Item(session.items, ContentKey));
    var row := NumberOrZero(Item(session.items, CursorRowKey));
    var col := NumberOrZero(Item(session.items, CursorColKey));
    s := EditorState(title, content, row, col);
  }
}
