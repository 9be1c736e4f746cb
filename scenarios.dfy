/**
 * Two client runs of the organiser, proved from the handlers' contracts
 * alone: a duplicate class is refused, and default note names count up.
 */
module Scenarios {
  import opened Wrappers
  import opened LectureState
  import opened Organizer

  /** Adding "Physics" twice: the second attempt is refused and one class remains. */
  method AddClassTwice() returns (first: Outcome, second: Outcome, names: set<string>)
    ensures first == Done && second == Rejected(ClassAlreadyExists)
    ensures names == {"Physics"}
  {
    var app := new LectureApp(None);
    first := app.AddClass(Some("Physics"));
    second := app.AddClass(Some("Physics"));
    names := app.classes.Keys;
  }

  /** A fresh app with class "Physics" holding the empty folder "Week1", which is selected. */
  method NewFolderSelected() returns (app: LectureApp)
    ensures fresh(app) && app.Valid()
    ensures app.classes == map["Physics" := ClassData(Some(map["Week1" := []]), None)]
    ensures app.selectedClass == Some("Physics") && app.selectedFolder == Some("Week1")
  {
    app := new LectureApp(None);
    var added := app.AddClass(Some("Physics"));
    assert app.classes == map["Physics" := NewClass];
    app.OnSelect(Some(ClassRow("Physics")));
    added := app.AddFolder(Some("Week1"));
    assert app.classes["Physics"] == ClassData(Some(map["Week1" := []]), None);
    app.OnSelect(Some(FolderRow("Physics", "Week1")));
  }

  /**
   * In a new folder, accepting the offered default name twice stores
   * "Notes 1" and then "Notes 2".
   */
  method DefaultNamesInNewFolder() returns (offers: seq<string>, notes: seq<string>)
    ensures offers == ["Notes 1", "Notes 2"]
    ensures notes == ["Notes 1", "Notes 2"]
  {
    var app := NewFolderSelected();
    DefaultNoteNameExamples();
    var added, offered := app.AddNotes(Some("Notes 1"));
    assert [] + ["Notes 1"] == ["Notes 1"];
    assert FolderNotes(app.classes, "Physics", "Week1") == Some(["Notes 1"]);
    offers := [offered.GetOr("")];
    added, offered := app.AddNotes(Some("Notes 2"));
    assert ["Notes 1"] + ["Notes 2"] == ["Notes 1", "Notes 2"];
    offers := offers + [offered.GetOr("")];
    notes := FolderNotes(app.classes, "Physics", "Week1").GetOr([]);
  }
}
