/**
 * The command handlers of `LectureApp` in app.py, over the in-memory state
 * document and the three selection fields.
 *
 * Each handler is a method.  The input dialog's answer is an
 * `Option<string>` parameter (None for Cancel), a yes/no confirmation is a
 * `bool`, the selected tree row is a `TreeNode`, and an error dialog or an
 * uncaught exception is the returned `Outcome`.  `save_state(STATE)` is the
 * ghost assignment `persisted := Some(classes)`; directories on disk are not
 * modelled.  Every handler that changes the document saves it and then runs
 * `_refresh_tree`, whose folder normalisation is `RefreshTree` below.
 */
module Organizer {
  import opened Wrappers
  import opened LectureState
  import PyBuiltins

  class LectureApp {
    /** `STATE["classes"]`. */
    var classes: Classes
    var selectedClass: Option<string>
    var selectedFolder: Option<string>
    var selectedDay: Option<string>
    /** The document last written to the state file; None while there is no file. */
    ghost var persisted: Option<Classes>

    /** The document as `_refresh_tree` leaves it: every class has its "folders" key. */
    predicate Valid()
      reads this
    {
      FoldersPresent(classes)
    }

    /**
     * Start-up: `load_state()` reads the state file, or gives `{"classes": {}}`
     * when there is none, and building the sidebar runs `_refresh_tree`.
     */
    constructor (stateFile: Option<Classes>)
      ensures classes == Normalize(stateFile.GetOr(map[])) && Valid()
      ensures selectedClass == None && selectedFolder == None && selectedDay == None
      ensures persisted == stateFile
    {
      classes := stateFile.GetOr(map[]);
      selectedClass, selectedFolder, selectedDay := None, None, None;
      persisted := stateFile;
      new;
      RefreshTree();
    }

    /** The loop of `_refresh_tree` that writes back `data.get("folders", {})` for every class. */
    method RefreshTree()
      modifies this`classes
      ensures classes == Normalize(old(classes)) && Valid()
    {
      var pending := classes.Keys;
      while pending != {}
        invariant classes.Keys == old(classes).Keys
        invariant pending <= classes.Keys
        invariant forall c :: c in classes ==>
                    classes[c] == if c in pending then old(classes)[c] else WithFolders(old(classes)[c])
        decreases pending
      {
        var c :| c in pending;
        classes := classes[c := WithFolders(classes[c])];
        pending := pending - {c};
      }
    }

    /**
     * `_on_select`: the depth of the row decides.  A note in a folder selects
     * class, folder and note; a row at depth 2 (a folder, or a class-level note,
     * which sits at the same depth) selects class and "folder" and clears the
     * note; a class selects the class and clears the rest; no row changes nothing.
     */
    method OnSelect(selection: Option<TreeNode>)
      modifies this`selectedClass, this`selectedFolder, this`selectedDay
      ensures selection.None? ==>
                selectedClass == old(selectedClass) && selectedFolder == old(selectedFolder) &&
                selectedDay == old(selectedDay)
      ensures selection.Some? ==> selectedClass == Some(selection.value.cls)
      ensures selection.Some? && selection.value.FolderNoteRow? ==>
                selectedFolder == Some(selection.value.folder) && selectedDay == Some(selection.value.note)
      ensures selection.Some? && selection.value.FolderRow? ==>
                selectedFolder == Some(selection.value.folder) && selectedDay == None
      ensures selection.Some? && selection.value.ClassNoteRow? ==>
                selectedFolder == Some(selection.value.note) && selectedDay == None
      ensures selection.Some? && selection.value.ClassRow? ==>
                selectedFolder == None && selectedDay == None
    {
      if selection.None? {
        return;
      }
      var p := Texts(selection.value);
      if |p| == 3 {
        selectedClass, selectedFolder, selectedDay := Some(p[0]), Some(p[1]), Some(p[2]);
      } else if |p| == 2 {
        selectedClass, selectedFolder, selectedDay := Some(p[0]), Some(p[1]), None;
      } else {
        selectedClass, selectedFolder, selectedDay := Some(p[0]), None, None;
      }
    }

    /**
     * `_add_class`: an empty or cancelled name does nothing, an existing name
     * is refused, and a fresh name is added as `{"folders": {}}`.
     */
    method AddClass(name: Option<string>) returns (outcome: Outcome)
      modifies this`classes, this`persisted
      ensures !Truthy(name) ==> outcome == Ignored
      ensures Truthy(name) && name.value in old(classes) ==> outcome == Rejected(ClassAlreadyExists)
      ensures Truthy(name) && name.value !in old(classes) ==> outcome == Done
      ensures outcome != Done ==> unchanged(this)
      ensures outcome == Done ==>
                persisted == Some(old(classes)[name.value := NewClass]) &&
                classes == Normalize(old(classes)[name.value := NewClass])
      ensures outcome == Done ==> classes.Keys == old(classes).Keys + {name.value} && classes[name.value] == NewClass
      ensures old(Valid()) && outcome == Done ==> classes == old(classes)[name.value := NewClass]
      ensures old(Valid()) ==> Valid()
    {
      if !Truthy(name) {
        return Ignored;
      }
      if name.value in classes {
        return Rejected(ClassAlreadyExists);
      }
      classes := classes[name.value := NewClass];
      persisted := Some(classes);
      RefreshTree();
      outcome := Done;
    }

    /**
     * `_add_folder`: needs a selected class (before the dialog is shown); an
     * empty name does nothing; a folder name the class already has is refused;
     * otherwise the folder is added with no notes.
     */
    method AddFolder(name: Option<string>) returns (outcome: Outcome)
      modifies this`classes, this`persisted
      ensures !Truthy(selectedClass) ==> outcome == Rejected(SelectClassFirst)
      ensures Truthy(selectedClass) && !Truthy(name) ==> outcome == Ignored
      ensures Truthy(selectedClass) && Truthy(name) && selectedClass.value !in old(classes) ==>
                outcome == Raised(KeyError(selectedClass.value))
      ensures Truthy(selectedClass) && Truthy(name) && selectedClass.value in old(classes) ==>
                var c := selectedClass.value;
                (name.value in FoldersOf(old(classes)[c]) ==> outcome == Rejected(FolderAlreadyExists(name.value))) &&
                (name.value !in FoldersOf(old(classes)[c]) ==>
                   outcome == Done &&
                   persisted == Some(SetFolderNotes(old(classes), c, name.value, [])) &&
                   classes == Normalize(SetFolderNotes(old(classes), c, name.value, [])))
      ensures outcome != Done ==> unchanged(this)
      ensures old(Valid()) ==> Valid()
    {
      if !Truthy(selectedClass) {
        return Rejected(SelectClassFirst);
      }
      if !Truthy(name) {
        return Ignored;
      }
      var c := selectedClass.value;
      if c !in classes {
        return Raised(KeyError(c));
      }
      var folders := FoldersOf(classes[c]);
      if name.value in folders {
        return Rejected(FolderAlreadyExists(name.value));
      }
      classes := SetFolderNotes(classes, c, name.value, []);
      persisted := Some(classes);
      RefreshTree();
      outcome := Done;
    }

    /**
     * `_add_notes`: needs a selected class.  With a folder selected, the note
     * goes at the end of that folder's list; otherwise at the end of the
     * class-level list, which `setdefault` creates (before the dialog, so a
     * cancelled dialog still leaves the new empty list).  `offered` is the
     * default name the dialog shows, "Notes " + str(len + 1) for the target list.
     */
    method AddNotes(name: Option<string>) returns (outcome: Outcome, offered: Option<string>)
      modifies this`classes, this`persisted
      ensures !Truthy(selectedClass) ==> outcome == Rejected(SelectClassOrFolderFirst) && offered == None
      ensures outcome.Raised? ==> offered == None
      ensures outcome != Done && !outcome.Ignored? ==> unchanged(this)
      ensures Truthy(selectedClass) && Truthy(selectedFolder) ==>
                var notes := FolderNotes(old(classes), selectedClass.value, selectedFolder.value);
                (notes.None? ==>
                   outcome == Raised(KeyError(MissingKey(old(classes), selectedClass.value, selectedFolder.value)))) &&
                (notes.Some? ==>
                   offered == Some(DefaultNoteName(|notes.value|)) &&
                   (!Truthy(name) ==> outcome == Ignored && unchanged(this)) &&
                   (Truthy(name) ==>
                      var updated := SetFolderNotes(old(classes), selectedClass.value, selectedFolder.value,
                                                    notes.value + [name.value]);
                      outcome == Done && persisted == Some(updated) && classes == Normalize(updated)))
      ensures Truthy(selectedClass) && !Truthy(selectedFolder) ==>
                var c := selectedClass.value;
                (c !in old(classes) ==> outcome == Raised(KeyError(c))) &&
                (c in old(classes) ==>
                   var notes := NotesOf(old(classes)[c]);
                   offered == Some(DefaultNoteName(|notes|)) &&
                   (!Truthy(name) ==>
                      outcome == Ignored && persisted == old(persisted) &&
                      classes == SetClassNotes(old(classes), c, notes)) &&
                   (Truthy(name) ==>
                      var updated := SetClassNotes(old(classes), c, notes + [name.value]);
                      outcome == Done && persisted == Some(updated) && classes == Normalize(updated)))
      ensures old(Valid()) ==> Valid()
    {
      offered := None;
      if !Truthy(selectedClass) {
        return Rejected(SelectClassOrFolderFirst), None;
      }
      var c := selectedClass.value;
      if Truthy(selectedFolder) {
        var f := selectedFolder.value;
        if c !in classes {
          return Raised(KeyError(c)), None;
        }
        if classes[c].folders.None? {
          return Raised(KeyError("folders")), None;
        }
        if f !in classes[c].folders.value {
          return Raised(KeyError(f)), None;
        }
        var days := classes[c].folders.value[f];
        offered := Some(DefaultNoteName(|days|));
        if !Truthy(name) {
          return Ignored, offered;
        }
        classes := SetFolderNotes(classes, c, f, days + [name.value]);
      } else {
        if c !in classes {
          return Raised(KeyError(c)), None;
        }
        var days := NotesOf(classes[c]);
        classes := SetClassNotes(classes, c, days);
        offered := Some(DefaultNoteName(|days|));
        if !Truthy(name) {
          return Ignored, offered;
        }
        classes := SetClassNotes(classes, c, days + [name.value]);
        assert classes == SetClassNotes(old(classes), c, days + [name.value]);
      }
      persisted := Some(classes);
      RefreshTree();
      outcome := Done;
    }

    /**
     * `_rename_class` on a class row: a new name with text that is not yet a
     * class moves the entry to the new key; a name already in use is refused;
     * anything else does nothing.  The selection is left as it was.
     */
    method RenameClass(node: TreeNode, newName: Option<string>) returns (outcome: Outcome)
      modifies this`classes, this`persisted
      ensures |Texts(node)| != 1 ==> outcome == Ignored
      ensures |Texts(node)| == 1 ==>
                (outcome == Done <==> HasText(newName) && newName.value !in old(classes) && node.cls in old(classes))
      ensures |Texts(node)| == 1 && newName.Some? && newName.value in old(classes) ==>
                outcome == Rejected(ClassNameTaken)
      ensures |Texts(node)| == 1 && HasText(newName) && newName.value !in old(classes) && node.cls !in old(classes) ==>
                outcome == Raised(KeyError(node.cls))
      ensures |Texts(node)| == 1 && !HasText(newName) && !(newName.Some? && newName.value in old(classes)) ==>
                outcome == Ignored
      ensures outcome.Rejected? ==> |Texts(node)| == 1 && newName.Some? && newName.value in old(classes)
      ensures outcome != Done ==> unchanged(this)
      ensures outcome == Done ==>
                persisted == Some(MoveClass(old(classes), node.cls, newName.value)) &&
                classes == Normalize(MoveClass(old(classes), node.cls, newName.value))
      ensures old(Valid()) && outcome == Done ==>
                classes == MoveClass(old(classes), node.cls, newName.value) &&
                classes[newName.value] == old(classes)[node.cls]
      ensures old(Displayed(classes, node)) ==> !outcome.Raised?
      ensures old(Valid()) ==> Valid()
    {
      var p := Texts(node);
      if |p| != 1 {
        return Ignored;
      }
      var oldName := p[0];
      if HasText(newName) && newName.value !in classes {
        if oldName !in classes {
          return Raised(KeyError(oldName));
        }
        classes := MoveClass(classes, oldName, newName.value);
        persisted := Some(classes);
        RefreshTree();
        outcome := Done;
      } else if newName.Some? && newName.value in classes {
        outcome := Rejected(ClassNameTaken);
      } else {
        outcome := Ignored;
      }
    }

    /**
     * `_rename_day` on a note inside a folder: a new name with text replaces
     * the first occurrence of the old name in the folder's list (found with
     * `index`); list length and every other position are kept.  There is no
     * check for a duplicate new name.  Rows above depth 3 are ignored.
     */
    method RenameDay(node: TreeNode, newName: Option<string>) returns (outcome: Outcome)
      modifies this`classes, this`persisted
      ensures |Texts(node)| < 3 || !HasText(newName) ==> outcome == Ignored
      ensures !outcome.Rejected?
      ensures outcome != Done ==> unchanged(this)
      ensures outcome == Done <==>
                |Texts(node)| == 3 && HasText(newName) &&
                var p := Texts(node);
                FolderNotes(old(classes), p[0], p[1]).Some? && p[2] in FolderNotes(old(classes), p[0], p[1]).value
      ensures outcome == Done ==>
                var p := Texts(node);
                var renamed := RenameFirst(FolderNotes(old(classes), p[0], p[1]).value, p[2], newName.value).value;
                persisted == Some(SetFolderNotes(old(classes), p[0], p[1], renamed)) &&
                classes == Normalize(SetFolderNotes(old(classes), p[0], p[1], renamed))
      ensures |Texts(node)| == 3 && HasText(newName) ==>
                var p := Texts(node);
                var days := FolderNotes(old(classes), p[0], p[1]);
                (days.None? ==> outcome == Raised(KeyError(MissingKey(old(classes), p[0], p[1])))) &&
                (days.Some? && p[2] !in days.value ==> outcome == Raised(ValueError))
      ensures old(Displayed(classes, node)) && node.FolderNoteRow? && HasText(newName) ==> outcome == Done
      ensures old(Valid()) ==> Valid()
    {
      var p := Texts(node);
      if |p| < 3 {
        return Ignored;
      }
      var c, f, oldName := p[0], p[1], p[2];
      if !HasText(newName) {
        return Ignored;
      }
      if c !in classes {
        return Raised(KeyError(c));
      }
      if classes[c].folders.None? {
        return Raised(KeyError("folders"));
      }
      if f !in classes[c].folders.value {
        return Raised(KeyError(f));
      }
      var days := classes[c].folders.value[f];
      match RenameFirst(days, oldName, newName.value) {
        case None =>
          outcome := Raised(ValueError);
        case Some(renamed) =>
          classes := SetFolderNotes(classes, c, f, renamed);
          persisted := Some(classes);
          RefreshTree();
          outcome := Done;
      }
    }

    /**
     * `_delete_day` on a note inside a folder: once confirmed, the first
     * occurrence of the name, if any, leaves the folder's list.  Rows above
     * depth 3 are ignored.  The selection is left as it was.
     */
    method DeleteDay(node: TreeNode, confirmed: bool) returns (outcome: Outcome)
      modifies this`classes, this`persisted
      ensures |Texts(node)| < 3 || !confirmed ==> outcome == Ignored && unchanged(this)
      ensures !outcome.Rejected?
      ensures outcome.Raised? ==> unchanged(this)
      ensures |Texts(node)| == 3 && confirmed ==>
                var p := Texts(node);
                var days := FolderNotes(old(classes), p[0], p[1]);
                (days.None? ==> outcome == Raised(KeyError(MissingKey(old(classes), p[0], p[1])))) &&
                (days.Some? && p[2] !in days.value ==>
                   outcome == Ignored && persisted == old(persisted) && classes == Normalize(old(classes))) &&
                (days.Some? && p[2] in days.value ==>
                   var kept := PyBuiltins.RemoveFirst(days.value, p[2]).value;
                   outcome == Done &&
                   persisted == Some(SetFolderNotes(old(classes), p[0], p[1], kept)) &&
                   classes == Normalize(SetFolderNotes(old(classes), p[0], p[1], kept)))
      ensures old(Displayed(classes, node)) && node.FolderNoteRow? && confirmed ==> outcome == Done
      ensures old(Valid()) ==> Valid()
    {
      var p := Texts(node);
      if |p| < 3 || !confirmed {
        return Ignored;
      }
      var c, f, day := p[0], p[1], p[2];
      if c !in classes {
        return Raised(KeyError(c));
      }
      if classes[c].folders.None? {
        return Raised(KeyError("folders"));
      }
      if f !in classes[c].folders.value {
        return Raised(KeyError(f));
      }
      var days := classes[c].folders.value[f];
      outcome := Ignored;
      if day in days {
        classes := SetFolderNotes(classes, c, f, PyBuiltins.RemoveFirst(days, day).value);
        persisted := Some(classes);
        outcome := Done;
      }
      RefreshTree();
    }

    /**
     * `_delete_folder` on a row at depth 2: once confirmed, the folder of that
     * name leaves the class, and is nothing when there is none (for a
     * class-level note row, a folder of the same name is what goes).  A row at
     * another depth is refused.
     */
    method DeleteFolder(node: TreeNode, confirmed: bool) returns (outcome: Outcome)
      modifies this`classes, this`persisted
      ensures |Texts(node)| != 2 ==> outcome == Rejected(SelectFolderToDelete) && unchanged(this)
      ensures |Texts(node)| == 2 && !confirmed ==> outcome == Ignored && unchanged(this)
      ensures |Texts(node)| == 2 && confirmed ==>
                var p := Texts(node);
                (p[0] !in old(classes) ==> outcome == Raised(KeyError(p[0])) && unchanged(this)) &&
                (p[0] in old(classes) && p[1] !in FoldersOf(old(classes)[p[0]]) ==>
                   outcome == Ignored && persisted == old(persisted) && classes == Normalize(old(classes))) &&
                (p[0] in old(classes) && p[1] in FoldersOf(old(classes)[p[0]]) ==>
                   outcome == Done &&
                   persisted == Some(RemoveFolder(old(classes), p[0], p[1])) &&
                   classes == Normalize(RemoveFolder(old(classes), p[0], p[1])))
      ensures old(Displayed(classes, node)) && node.FolderRow? && confirmed ==> outcome == Done
      ensures old(Valid()) ==> Valid()
    {
      var p := Texts(node);
      if |p| != 2 {
        return Rejected(SelectFolderToDelete);
      }
      var c, folder := p[0], p[1];
      if !confirmed {
        return Ignored;
      }
      if c !in classes {
        return Raised(KeyError(c));
      }
      outcome := Ignored;
      if folder in FoldersOf(classes[c]) {
        classes := RemoveFolder(classes, c, folder);
        persisted := Some(classes);
        outcome := Done;
      }
      RefreshTree();
    }

    /**
     * `_delete_class` on a class row: once confirmed, the class key goes
     * (`pop(cname, None)`, nothing when absent), the document is saved, and
     * all three selection fields are cleared.
     */
    method DeleteClass(node: TreeNode, confirmed: bool) returns (outcome: Outcome)
      modifies this
      ensures |Texts(node)| != 1 || !confirmed ==> outcome == Ignored && unchanged(this)
      ensures |Texts(node)| == 1 && confirmed ==>
                outcome == Done &&
                persisted == Some(old(classes) - {node.cls}) &&
                classes == Normalize(old(classes) - {node.cls}) &&
                selectedClass == None && selectedFolder == None && selectedDay == None
      ensures old(Valid()) && outcome == Done ==> classes == old(classes) - {node.cls}
      ensures old(Valid()) ==> Valid()
    {
      var p := Texts(node);
      if |p| != 1 || !confirmed {
        return Ignored;
      }
      classes := classes - {p[0]};
      persisted := Some(classes);
      RefreshTree();
      selectedClass, selectedFolder, selectedDay := None, None, None;
      outcome := Done;
    }
  }
}
