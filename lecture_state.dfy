/**
 * The values of the lecture organiser of app.py: the in-memory state
 * document `STATE["classes"]`, the rows of the sidebar tree, what a command
 * handler reports, and the pure updates the handlers apply to the document.
 *
 * The state file is a JSON document `{"classes": {<class>: {"folders":
 * {<folder>: [<note>, ...]}, "notes": [<note>, ...]}}}`.  Either key of a class
 * entry may be missing: `_add_class` stores `{"folders": {}}` without "notes",
 * and a hand-edited file may lack "folders".
 */
module LectureState {
  import opened Wrappers
  import PyBuiltins

  /** One class entry; None stands for a missing key. */
  datatype ClassData = ClassData(folders: Option<map<string, seq<string>>>, notes: Option<seq<string>>)

  /** `STATE["classes"]`: class name to class entry. */
  type Classes = map<string, ClassData>

  /** `{"folders": {}}`, the entry `_add_class` stores. */
  const NewClass: ClassData := ClassData(Some(map[]), None)

  /** `data.get("folders", {})`. */
  function FoldersOf(d: ClassData): map<string, seq<string>> {
    d.folders.GetOr(map[])
  }

  /** `data.get("notes", [])`. */
  function NotesOf(d: ClassData): seq<string> {
    d.notes.GetOr([])
  }

  /** The entry after `STATE["classes"][cname]["folders"] = data.get("folders", {})`. */
  function WithFolders(d: ClassData): ClassData {
    d.(folders := Some(FoldersOf(d)))
  }

  /** Every class entry has its "folders" key, as `_refresh_tree` leaves the document. */
  predicate FoldersPresent(m: Classes) {
    forall c :: c in m ==> m[c].folders.Some?
  }

  /**
   * The folder normalisation of `_refresh_tree`: every class entry gets a
   * "folders" key, an empty one where it was missing; nothing shown in the
   * tree changes, and a document that already has every key stays as it is.
   */
  function Normalize(m: Classes): (r: Classes)
    ensures r.Keys == m.Keys
    ensures FoldersPresent(r)
    ensures forall c :: c in m ==> r[c].notes == m[c].notes && FoldersOf(r[c]) == FoldersOf(m[c])
    ensures FoldersPresent(m) ==> r == m
  {
    map c | c in m :: WithFolders(m[c])
  }

  /** Normalising twice is normalising once. */
  lemma NormalizeIdempotent(m: Classes)
    ensures Normalize(Normalize(m)) == Normalize(m)
  {
  }

  /** `STATE["classes"][c]["folders"][f]`: None where Python raises KeyError. */
  function FolderNotes(m: Classes, c: string, f: string): (r: Option<seq<string>>)
    ensures r.Some? <==> c in m && m[c].folders.Some? && f in m[c].folders.value
  {
    if c in m && m[c].folders.Some? && f in m[c].folders.value then Some(m[c].folders.value[f]) else None
  }

  /** The key whose KeyError `STATE["classes"][c]["folders"][f]` raises, when it fails. */
  function MissingKey(m: Classes, c: string, f: string): string {
    if c !in m then c else if m[c].folders.None? then "folders" else f
  }

  /**
   * The document with folder f of class c holding `notes` (the folder is
   * created when missing, and so is the "folders" key, as `setdefault` does);
   * nothing else changes.
   */
  function SetFolderNotes(m: Classes, c: string, f: string, notes: seq<string>): (r: Classes)
    requires c in m
    ensures r.Keys == m.Keys
    ensures forall k :: k in m && k != c ==> r[k] == m[k]
    ensures r[c].notes == m[c].notes
    ensures FolderNotes(r, c, f) == Some(notes)
    ensures FoldersPresent(m) ==> FoldersPresent(r)
    ensures FoldersOf(r[c]).Keys == FoldersOf(m[c]).Keys + {f}
    ensures forall g :: g in FoldersOf(m[c]) && g != f ==> FoldersOf(r[c])[g] == FoldersOf(m[c])[g]
  {
    m[c := m[c].(folders := Some(FoldersOf(m[c])[f := notes]))]
  }

  /** The document with the class-level note list of c set to `notes`; nothing else changes. */
  function SetClassNotes(m: Classes, c: string, notes: seq<string>): (r: Classes)
    requires c in m
    ensures r.Keys == m.Keys
    ensures forall k :: k in m && k != c ==> r[k] == m[k]
    ensures r[c].folders == m[c].folders && r[c].notes == Some(notes)
  {
    m[c := m[c].(notes := Some(notes))]
  }

  /** `del folders[f]` for class c: only that folder goes; nothing else changes. */
  function RemoveFolder(m: Classes, c: string, f: string): (r: Classes)
    requires c in m && f in FoldersOf(m[c])
    ensures r.Keys == m.Keys
    ensures forall k :: k in m && k != c ==> r[k] == m[k]
    ensures r[c].notes == m[c].notes
    ensures FoldersOf(r[c]).Keys == FoldersOf(m[c]).Keys - {f}
    ensures forall g :: g in FoldersOf(r[c]) ==> FoldersOf(r[c])[g] == FoldersOf(m[c])[g]
  {
    m[c := m[c].(folders := Some(FoldersOf(m[c]) - {f}))]
  }

  /**
   * `classes[n] = classes.pop(o)`: the old key is gone, the new key holds the
   * old entry unchanged, and every other class is untouched.
   */
  function MoveClass(m: Classes, o: string, n: string): (r: Classes)
    requires o in m && n !in m
    ensures r.Keys == m.Keys - {o} + {n}
    ensures o !in r && r[n] == m[o]
    ensures forall k :: k in m && k != o ==> k in r && r[k] == m[k]
  {
    (m - {o})[n := m[o]]
  }

  /** Renaming a class back restores the document. */
  lemma MoveClassBack(m: Classes, o: string, n: string)
    requires o in m && n !in m
    ensures MoveClass(MoveClass(m, o, n), n, o) == m
  {
  }

  /** Adding a folder and deleting it again restores a normalised document. */
  lemma AddThenDeleteFolder(m: Classes, c: string, f: string)
    requires c in m && m[c].folders.Some? && f !in FoldersOf(m[c])
    ensures RemoveFolder(SetFolderNotes(m, c, f, []), c, f) == m
  {
    var r := RemoveFolder(SetFolderNotes(m, c, f, []), c, f);
    assert FoldersOf(r[c]) == FoldersOf(m[c]);
  }

  // ---------------------------------------------------------------- notes in a list

  /** `days[days.index(a)] = b`: the first a becomes b; length and every other position are kept. */
  function RenameFirst(days: seq<string>, a: string, b: string): (r: Option<seq<string>>)
    ensures r.None? <==> a !in days
    ensures r.Some? ==> |r.value| == |days|
    ensures r.Some? ==> var i := PyBuiltins.IndexOf(days, a).value;
              r.value[i] == b && forall j :: 0 <= j < |days| && j != i ==> r.value[j] == days[j]
  {
    match PyBuiltins.IndexOf(days, a)
    case None => None
    case Some(i) => Some(days[i := b])
  }

  /** Renaming a note to a fresh name and back restores the list. */
  lemma RenameFirstBack(days: seq<string>, a: string, b: string)
    requires a in days && b !in days
    ensures var once := RenameFirst(days, a, b).value; RenameFirst(once, b, a) == Some(days)
  {
    var i := PyBuiltins.IndexOf(days, a).value;
    var once := days[i := b];
    assert once[..i] == days[..i];
    assert PyBuiltins.IndexOf(once, b) == Some(i) by {
      assert once[i] == b;
      var k := PyBuiltins.IndexOf(once, b).value;
      assert once[k] == b;
      assert k == i;
    }
    assert once[i := a] == days;
  }

  /** With a duplicated name, renaming one copy leaves the other in place. */
  lemma RenameFirstKeepsDuplicate(days: seq<string>, a: string, b: string)
    requires multiset(days)[a] >= 2
    ensures a in RenameFirst(days, a, b).value
  {
    var i := PyBuiltins.IndexOf(days, a).value;
    var r := days[i := b];
    assert multiset(r) == multiset(days) - multiset{a} + multiset{b};
    assert multiset(r)[a] >= 1;
  }

  /** With a duplicated name, deleting removes the first copy only. */
  lemma RemoveFirstKeepsDuplicate(days: seq<string>, a: string)
    requires multiset(days)[a] >= 2
    ensures a in PyBuiltins.RemoveFirst(days, a).value
  {
    PyBuiltins.RemoveFirstMultiset(days, a);
    assert multiset(PyBuiltins.RemoveFirst(days, a).value)[a] >= 1;
  }

  // ---------------------------------------------------------------- default note name

  /** The name `_add_notes` offers for a list holding `count` notes: "Notes " + str(count + 1). */
  function DefaultNoteName(count: nat): (name: string)
    ensures |name| > 6 && name[..6] == "Notes "
    ensures PyBuiltins.AllDigits(name[6..]) && PyBuiltins.DecimalValue(name[6..]) == count + 1
  {
    var digits := PyBuiltins.DecimalString(count + 1);
    PyBuiltins.DecimalRoundTrip(count + 1);
    var name := "Notes " + digits;
    assert name[6..] == digits;
    name
  }

  /** Lists of different lengths get different default names. */
  lemma DefaultNoteNamesDistinct(i: nat, j: nat)
    ensures i != j ==> DefaultNoteName(i) != DefaultNoteName(j)
  {
  }

  /** The first default names in an empty folder. */
  lemma DefaultNoteNameExamples()
    ensures DefaultNoteName(0) == "Notes 1" && DefaultNoteName(1) == "Notes 2"
  {
  }

  // ---------------------------------------------------------------- the sidebar tree

  /**
   * A row of the sidebar tree.  `_refresh_tree` puts classes at the top
   * level, and under a class first its class-level notes and then its
   * folders, with each folder's notes under it.
   */
  datatype TreeNode =
    | ClassRow(cls: string)
    | ClassNoteRow(cls: string, note: string)
    | FolderRow(cls: string, folder: string)
    | FolderNoteRow(cls: string, folder: string, note: string)

  /**
   * The texts of a row and its ancestors, root first: all the handlers read
   * of a row (through `tree.parent` and `tree.item(_, "text")`).  A
   * class-level note sits at depth 2, as a folder does.
   */
  function Texts(node: TreeNode): (p: seq<string>)
    ensures 1 <= |p| <= 3 && p[0] == node.cls
    ensures |p| == 2 <==> node.ClassNoteRow? || node.FolderRow?
  {
    match node
    case ClassRow(c) => [c]
    case ClassNoteRow(c, n) => [c, n]
    case FolderRow(c, f) => [c, f]
    case FolderNoteRow(c, f, n) => [c, f, n]
  }

  /** The row appears in the tree `_refresh_tree` builds from m. */
  predicate Displayed(m: Classes, node: TreeNode): (shown: bool)
    ensures shown ==> node.cls in m
    ensures node.FolderNoteRow? && node.cls in m && m[node.cls].folders.Some? ==>
              (shown <==> FolderNotes(m, node.cls, node.folder).Some? &&
                          node.note in FolderNotes(m, node.cls, node.folder).value)
    ensures (node.FolderRow? || node.FolderNoteRow?) && shown ==> m[node.cls].folders.Some?
  {
    match node
    case ClassRow(c) => c in m
    case ClassNoteRow(c, n) => c in m && n in NotesOf(m[c])
    case FolderRow(c, f) => c in m && f in FoldersOf(m[c])
    case FolderNoteRow(c, f, n) => c in m && f in FoldersOf(m[c]) && n in FoldersOf(m[c])[f]
  }

  /** A displayed note inside a folder can be looked up by the texts of its row. */
  lemma DisplayedFolderNote(m: Classes, node: TreeNode)
    requires FoldersPresent(m) && Displayed(m, node) && node.FolderNoteRow?
    ensures var p := Texts(node); FolderNotes(m, p[0], p[1]).Some? && p[2] in FolderNotes(m, p[0], p[1]).value
  {
  }

  // ---------------------------------------------------------------- dialog input

  /** Python's `if name:` on the result of the input dialog: present and not empty. */
  predicate Truthy(name: Option<string>) {
    name.Some? && name.value != ""
  }

  /** Python's `if name and name.strip():`: present and not only white space. */
  predicate HasText(name: Option<string>) {
    name.Some? && PyBuiltins.Strip(name.value) != ""
  }

  /** A name with text is a truthy name, not a blank one. */
  lemma HasTextIsTruthy(name: Option<string>)
    ensures HasText(name) <==> name.Some? && !PyBuiltins.IsBlank(name.value)
    ensures HasText(name) ==> Truthy(name)
  {
  }

  // ---------------------------------------------------------------- what a handler reports

  /** The error dialogs (`messagebox.showerror`) a handler can show. */
  datatype Complaint =
    | ClassAlreadyExists             // _add_class, duplicate name
    | ClassNameTaken                 // _rename_class, duplicate name
    | FolderAlreadyExists(folder: string)
    | SelectClassFirst               // _add_folder without a selected class
    | SelectClassOrFolderFirst       // _add_notes without a selected class
    | SelectFolderToDelete           // _delete_folder on a row that is not at depth 2

  /** An exception that escapes a handler (Tk reports it and the handler stops). */
  datatype PyError = KeyError(key: string) | ValueError

  datatype Outcome =
    | Done                           // the document changed and was saved
    | Ignored                        // the handler returned early, or changed nothing
    | Rejected(complaint: Complaint) // an error dialog; nothing changed
    | Raised(error: PyError)         // an uncaught exception; nothing changed
}
