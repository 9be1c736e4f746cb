# Lecture organiser: chunker and class/folder/note state machine

A Dafny model of two pieces of the LectureAI desktop application.

1. **The text chunker** (`chunk_text`), which cuts a transcript into
   consecutive, non-overlapping slices of `max_chars` characters before it is
   summarised. The last slice may be shorter. An empty text gives the single
   chunk `""`.
2. **The organisation state machine** of `LectureApp`. The in-memory state
   document `STATE["classes"]` maps a class name to
   `{"folders": {folder: [note, ...]}, "notes": [note, ...]}`. The sidebar
   tree shows classes, then each class's class-level notes and folders, then
   each folder's notes. The command handlers change the document in place and
   save it. Three selection fields (`selected_class`, `selected_folder`,
   `selected_day`) record the selected row.

## Files

- `wrappers.dfy`: `Option`, which stands for Python's `None` and for a missing dictionary key.
- `chunking.dfy`: `chunk_text` as a recursive function over `string`, with its properties.
- `pybuiltins.dfy`: the Python built-ins the handlers use: `list.index`,
  `list.remove`, `str(n)` and `str.strip`. A `ValueError` is a `None` result.
- `lecture_state.dfy`: the state document as values, the sidebar rows, what a
  handler reports, and the pure updates the handlers make (each with its
  "nothing else changes" contract).
- `lecture_app.dfy`: class `LectureApp`. It has the document, the three
  selection fields and a ghost copy of the saved state file. There is one method per handler.
- `scenarios.dfy`: two client runs proved from the handlers' contracts. Adding a
  class twice is refused the second time. Default note names count up: "Notes 1", then "Notes 2".

## How the handlers are modelled

- Each input dialog answer is an `Option<string>` parameter, with `None` for
  Cancel. Each yes/no confirmation is a `bool`. The right-clicked or selected row
  is a `TreeNode`. A handler reads only the texts on the row's path
  (`Texts`), and it branches on the path's depth, as the Tk code does with
  `tree.parent`.
- The handler's result is an `Outcome`:
  - `Done`: the document changed and was saved.
  - `Ignored`: an early return, or a no-op.
  - `Rejected(c)`: an error dialog.
  - `Raised(e)`: an uncaught `KeyError` or `ValueError`.
- Every `KeyError` and `ValueError` the model raises comes from a dictionary
  lookup, `list.index` or `list.remove`, and each of these runs before the
  handler's first change to the document. So `Rejected` and `Raised` leave the
  object unchanged. The contracts name the missing key, in the order Python
  looks the keys up: the class, then "folders", then the folder.
- Handlers do not require the row to be displayed. Looking up a stale
  selection raises, exactly as in Python. Separate postconditions say that no
  lookup fails for a row the tree currently displays (`Displayed`).
- `save_state(STATE)` is the ghost assignment `persisted := Some(classes)`.
  `_refresh_tree` runs after each change. It writes back
  `data.get("folders", {})` for every class (`RefreshTree`, a loop). Its
  result is `Normalize`. `Valid()` says that every class has its "folders"
  key. The constructor establishes it and every handler keeps it.

Behaviour of the code that the model keeps as written:

- A class-level note sits at depth 2 in the tree, as a folder does. So:
  - `_on_select` stores the note's name in `selected_folder`.
  - The depth-2 menu's "Delete Folder" deletes a same-named folder, if the class has one.
- Class-level notes cannot be renamed or deleted. `_rename_day` and
  `_delete_day` act only on depth-3 rows.
- `_add_notes` without a selected folder runs `setdefault("notes", [])`
  before the dialog opens. A cancelled dialog therefore still leaves the new
  empty list in memory, unsaved.
- `_rename_day` and `_add_notes` do not check for duplicate note names.
  Rename and delete act on the first occurrence only.
- `_rename_class` and `_delete_day` leave the selection fields stale. Only
  `_delete_class` clears them.

The model also keeps these facts about the code:

- No handler renames a folder.
- No handler renames or deletes a class-level note.
- A cancelled "Add Notes" on a class still leaves the new empty
  class-level list in memory, as described above.

## Model

| member | source | states |
|---|---|---|
| `Chunking.ChunkText` | core/utils/chunking.py:2-13 | The result is never empty, and it is exactly `[""]` for an empty text. For a non-empty text: `(n-1)*max < len <= n*max` for n chunks, and every chunk is non-empty. Every chunk has at most `max_chars` characters, and all but the last have exactly `max_chars`. |
| `Chunking.SlicesFrom` | core/utils/chunking.py:13 | The comprehension over `range(start, len, m)` yields ceiling((len-start)/m) slices, stated without division. There are none when start is past the end. Each slice has between 1 and m characters, and all but the last have exactly m. |
| `Chunking.ChunkCount` | core/utils/chunking.py:13 | For non-empty text, the chunk count is `(len(text) + max_chars - 1) // max_chars`. |
| `Chunking.ConcatSlicesFrom` | core/utils/chunking.py:13 | Joining the slices taken from `start` gives `text[start:]`. |
| `Chunking.ChunkTextJoins` | core/utils/chunking.py:13 | `"".join(chunk_text(text, m)) == text` for every text and every m > 0. |
| `Chunking.SliceAt` | core/utils/chunking.py:13 | Slice k taken from `start` is `text[start+k*m : start+k*m+m]`, with the end clamped. |
| `Chunking.ChunkTextAt` | core/utils/chunking.py:13 | Chunk k of a non-empty text is `text[k*max : k*max+max]`. |
| `PyBuiltins.IndexOf` | app.py:279 | `days.index(x)` is the first position holding x, and no earlier position holds it. The result is None (ValueError) exactly when x is absent. |
| `PyBuiltins.RemoveFirst` | app.py:323-324 | `days.remove(x)` is None exactly when x is absent. Otherwise it is one shorter, and equals the list with position `index(x)` cut out. |
| `PyBuiltins.RemoveFirstMultiset` | app.py:324 | `remove` takes exactly one x out of the list's items and keeps all others. |
| `PyBuiltins.DecimalString` | app.py:414 | `str(n)` is a non-empty string of digits, with no leading zero unless n is 0. |
| `PyBuiltins.DecimalRoundTrip` | app.py:414 | Reading back `str(n)` as a decimal gives n. |
| `PyBuiltins.DecimalStringInjective` | app.py:422 | Different counts give different decimal strings. |
| `PyBuiltins.TrimStart` | app.py:277 | The leading-white-space removal of `strip()` gives a suffix of s. What it drops is all white space, and what is left does not start with white space. |
| `PyBuiltins.TrimEnd` | app.py:277 | The trailing-white-space removal of `strip()` gives a prefix of s. What it drops is all white space, and what is left does not end with white space. |
| `PyBuiltins.Strip` | app.py:277 | `s.strip()` is a contiguous window of s. Everything before and after the window is white space, and the window neither starts nor ends with white space. |
| `PyBuiltins.StripEmptyIffBlank` | app.py:298 | `s.strip()` is empty exactly when every character of s is white space. |
| `LectureState.Normalize` | app.py:200-201 | The folder normalisation keeps the class keys and every class's notes and visible folders. It gives every class a "folders" key, and it is the identity on a document that already has them. |
| `LectureState.NormalizeIdempotent` | app.py:200-201 | Normalising twice equals normalising once. |
| `LectureState.FolderNotes` | app.py:278 | `STATE["classes"][c]["folders"][f]` succeeds exactly when the class, its "folders" key and the folder all exist. |
| `LectureState.SetFolderNotes` | app.py:402 | Storing a folder's list keeps the class keys, every other class, the class's note list and every other folder. The folder is created when missing, together with the "folders" key if that is missing too. |
| `LectureState.SetClassNotes` | app.py:421-426 | Storing the class-level list keeps the class keys, every other class and the class's folders. |
| `LectureState.RemoveFolder` | app.py:350-352 | `del folders[f]` removes exactly that folder key. It keeps every other folder, the notes and every other class. |
| `LectureState.MoveClass` | app.py:306 | `classes[new] = classes.pop(old)`: the old key is gone and the new key holds the old entry unchanged. Every other class is untouched. |
| `LectureState.MoveClassBack` | app.py:306 | Renaming a class to a fresh name and back restores the document. |
| `LectureState.AddThenDeleteFolder` | app.py:397-402 | Adding a fresh empty folder and then deleting it restores a normalised document. |
| `LectureState.RenameFirst` | app.py:277-287 | `days[days.index(a)] = b` is None (ValueError) exactly when a is absent. Otherwise it keeps the length and every position except the first a, which becomes b. |
| `LectureState.RenameFirstBack` | app.py:277-287 | Renaming a note to a name not in the list, and back again, restores the list. |
| `LectureState.RenameFirstKeepsDuplicate` | app.py:279 | When a name occurs twice, renaming leaves the other copy in the list. |
| `LectureState.RemoveFirstKeepsDuplicate` | app.py:323-324 | When a name occurs twice, deleting leaves the other copy in the list. |
| `LectureState.DefaultNoteName` | app.py:414 | The offered name is "Notes " followed by digits that read back as len + 1. |
| `LectureState.DefaultNoteNamesDistinct` | app.py:422 | Lists of different lengths are offered different default names. |
| `LectureState.DefaultNoteNameExamples` | app.py:414 | The first two offered names are "Notes 1" and "Notes 2". |
| `LectureState.Texts` | app.py:214-216 | A row's path has 1 to 3 texts and starts with its class. Depth 2 holds exactly the folders and the class-level notes. |
| `LectureState.Displayed` | app.py:192-205 | Only a class in the document is shown. A folder row or folder-note row is shown only when its class has a "folders" key. A folder-note row of such a class is shown exactly when the folder exists and its list holds the note. |
| `LectureState.DisplayedFolderNote` | app.py:202-205 | A displayed note inside a folder is found by looking up its row's texts. |
| `LectureState.HasTextIsTruthy` | app.py:277 | `name and name.strip()` holds exactly when the name is present and not blank, and then `name` is truthy. |
| `Organizer.LectureApp.constructor` | app.py:84-97 | The loaded document, or `{}` without a state file, is normalised by the first tree refresh. The saved file is what was loaded, and the selection is empty. |
| `Organizer.LectureApp.RefreshTree` | app.py:190-205 | The loop over the classes leaves the document equal to `Normalize` of the old one. |
| `Organizer.LectureApp.OnSelect` | app.py:209-229 | A folder note selects class, folder and note. A depth-2 row (a folder, or a class-level note) selects class and "folder" and clears the note. A class selects the class and clears the rest. No row changes nothing. |
| `Organizer.LectureApp.AddClass` | app.py:376-386 | An empty or absent name does nothing. A duplicate name is refused with the state unchanged. A fresh name adds exactly that key as `{"folders": {}}` and saves; under `Valid` the rest is unchanged. |
| `Organizer.LectureApp.AddFolder` | app.py:388-404 | Without a selected class it is refused. An empty name does nothing, and a stale class raises KeyError. A duplicate folder is refused with the state unchanged. Otherwise the folder is added with an empty list and saved. |
| `Organizer.LectureApp.AddNotes` | app.py:406-430 | Without a selected class it is refused. A missing class, "folders" key or folder raises KeyError naming the first key that is missing. The offered default is "Notes " + (len + 1) of the target list. A confirmed name is appended to the selected folder's list, or else to the class-level list, which is created if missing (and kept on cancel). |
| `Organizer.LectureApp.RenameClass` | app.py:291-310 | On a class row, it takes effect exactly when the new name has text and is not a class. Then the old key's entry moves to the new key unchanged, and a stale old name raises KeyError. The error dialog appears exactly when the new name is already a class. A blank or cancelled name that is not a class does nothing. |
| `Organizer.LectureApp.RenameDay` | app.py:268-289 | On a folder-note row with a new name that has text, the first occurrence of the old name becomes the new name. Length and all other positions are kept. A missing class, "folders" key or folder raises KeyError naming the first missing key. A note not in the list raises ValueError. Other rows and blank names do nothing. |
| `Organizer.LectureApp.DeleteDay` | app.py:312-332 | On a folder-note row, once confirmed, it removes only the first occurrence of the name. A missing class, "folders" key or folder raises KeyError naming the first missing key. A note not in the list changes nothing and is not saved. Declined or other rows do nothing. |
| `Organizer.LectureApp.DeleteFolder` | app.py:334-355 | A row not at depth 2 is refused. Once confirmed, only that folder key is deleted, and a missing folder changes nothing. |
| `Organizer.LectureApp.DeleteClass` | app.py:357-374 | Once confirmed, it removes the class key (a no-op if absent), saves, and resets all three selection fields to None. Declined does nothing. |
| `Scenarios.AddClassTwice` | app.py:376-383 | Adding "Physics" twice: the second call is refused and only "Physics" exists. |
| `Scenarios.NewFolderSelected` | app.py:388-402 | A new class with a new folder, selected, holds an empty note list. |
| `Scenarios.DefaultNamesInNewFolder` | app.py:406-418 | In a new folder, the offered names are "Notes 1" then "Notes 2", and accepting them stores both in order. |

## Left out

- Tk UI: layout, styling, menus, the Treeview widget and `custom_input_dialog`. The
  dialog's (already stripped) answer is a parameter. Which menu offers which handler
  (`_on_right_click`) is not modelled; each handler's own depth check is.
- `tree.selection()[0]` on an empty selection: those handlers take the row as a
  parameter, since the menus select the row before offering the command.
- Filesystem effects: `ensure_class_dir`, `ensure_day_dir`, directory renames,
  `shutil.rmtree`, the second "delete files" confirmation, and the warnings on
  failure. They are OS I/O. The rename and delete handlers catch these errors,
  so the document change does not depend on them there.
  `open_in_explorer` and `_on_double_click` are also left out.
- `load_state`/`save_state` JSON I/O: loading is the constructor's parameter, and saving is the ghost `persisted` field. A malformed state file is not modelled.
- Dictionary insertion order: Dafny maps are unordered. So the tree's row order, and the fact that a renamed class moves to the end, are not modelled.
- Transcription and summarisation (`transcribe_file`, `summarize_text` and their
  background threads), `core/storage.py` and `core/models.py`. They are ML
  library calls, file I/O and a timestamp. The Windows DPI calls are left out too.
- An error from `ensure_class_dir` (app.py:384) or `ensure_day_dir` (app.py:428) is
  not modelled. These calls are not caught, and they run after the in-memory change
  and before `save_state`. Such an error would leave the document changed but
  neither saved nor refreshed. The model's `AddClass` and `AddNotes` always save.
- `str.isspace` is modelled on its fixed list of Unicode white-space code points.
