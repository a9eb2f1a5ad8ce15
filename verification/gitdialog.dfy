/** The pure parts of the Git status dialog: splitting a unified diff into
    the two aligned columns of the side-by-side viewer, and the bookkeeping
    of which changed files are selected for commit. The file list widget is
    modelled by the check state of each of its rows. */
module GitDialog {
  import opened PyStr
  import opened PyList
  import opened GitStatus

  // ---------------------------------------------------------------- diff split

  datatype RowKind = Header | Removed | Added | Empty | Context

  datatype DiffRow = DiffRow(kind: RowKind, text: string)

  /** The rows one diff line contributes to the left and right columns, and
      whether the lines after it are hunk content. */
  datatype LineOutcome = LineOutcome(left: seq<DiffRow>, right: seq<DiffRow>, inContent: bool)

  const FileLabel: string := "파일: "

  function ClassifyLine(line: string, inContent: bool): (o: LineOutcome)
    ensures |o.left| == |o.right| <= 1
  {
    if StartsWith(line, "diff --git") then
      var h := DiffRow(Header, FileLabel + (if |line| > 11 then line[11..] else ""));
      LineOutcome([h], [h], false)
    else if StartsWith(line, "@@") then
      LineOutcome([], [], true)
    else if !inContent then
      LineOutcome([], [], false)
    else if StartsWith(line, "-") then
      LineOutcome([DiffRow(Removed, line[1..])], [DiffRow(Empty, "")], true)
    else if StartsWith(line, "+") then
      LineOutcome([DiffRow(Empty, "")], [DiffRow(Added, line[1..])], true)
    else if StartsWith(line, " ") || line == "" then
      var c := DiffRow(Context, if StartsWith(line, " ") then line[1..] else "");
      LineOutcome([c], [c], true)
    else
      LineOutcome([], [], true)
  }

  /** The `for line in lines` loop of `parse_diff_content`. */
  function ParseLines(lines: seq<string>, inContent: bool): (r: (seq<DiffRow>, seq<DiffRow>))
  {
    if |lines| == 0 then ([], [])
    else
      var o := ClassifyLine(lines[0], inContent);
      var rest := ParseLines(lines[1..], o.inContent);
      (o.left + rest.0, o.right + rest.1)
  }

  /** `parse_diff_content(diff)` */
  function ParseDiffContent(diff: string): (seq<DiffRow>, seq<DiffRow>)
  {
    ParseLines(Split(diff, "\n"), false)
  }

  /** Both columns always have the same number of rows, so the viewers stay
      aligned line for line. */
  lemma {:induction false} ColumnsAligned(lines: seq<string>, inContent: bool)
    ensures |ParseLines(lines, inContent).0| == |ParseLines(lines, inContent).1|
  {
    if |lines| > 0 {
      ColumnsAligned(lines[1..], ClassifyLine(lines[0], inContent).inContent);
    }
  }

  lemma ParseDiffContentAligned(diff: string)
    ensures |ParseDiffContent(diff).0| == |ParseDiffContent(diff).1|
  {
    ColumnsAligned(Split(diff, "\n"), false);
  }

  /** Rows in the same position of the two columns pair up: a removal faces
      an empty row, an addition faces an empty row, and headers and context
      are the same on both sides. */
  predicate Paired(l: DiffRow, r: DiffRow)
  {
    (l.kind == Removed && r == DiffRow(Empty, "")) ||
    (l == DiffRow(Empty, "") && r.kind == Added) ||
    ((l.kind == Header || l.kind == Context) && l == r)
  }

  lemma {:induction false} RowsPaired(lines: seq<string>, inContent: bool)
    ensures var r := ParseLines(lines, inContent);
      |r.0| == |r.1| && forall i :: 0 <= i < |r.0| ==> Paired(r.0[i], r.1[i])
  {
    if |lines| > 0 {
      var o := ClassifyLine(lines[0], inContent);
      RowsPaired(lines[1..], o.inContent);
    }
  }

  /** Before the first hunk marker nothing but the file headers reaches the
      viewer: a text with no line starting `@@` yields headers only. */
  lemma {:induction false} NoHunkOnlyHeaders(lines: seq<string>)
    requires forall i :: 0 <= i < |lines| ==> !StartsWith(lines[i], "@@")
    ensures forall row :: row in ParseLines(lines, false).0 ==> row.kind == Header
  {
    if |lines| > 0 {
      var o := ClassifyLine(lines[0], false);
      assert !o.inContent;
      assert forall i :: 0 <= i < |o.left| ==> o.left[i].kind == Header;
      NoHunkOnlyHeaders(lines[1..]);
      var rest := ParseLines(lines[1..], false);
      var all := ParseLines(lines, false).0;
      assert all == o.left + rest.0;
    }
  }

  // ---------------------------------------------------------------- selection

  datatype CheckState = Unchecked | PartiallyChecked | Checked

  function Names(files: seq<FileEntry>): (r: seq<string>)
    ensures |r| == |files|
    ensures forall i :: 0 <= i < |files| ==> r[i] == files[i].filename
  {
    if |files| == 0 then [] else [files[0].filename] + Names(files[1..])
  }

  /** The tri-state of the "select all" box for `selected` of `total` files. */
  function SelectAllState(selected: nat, total: nat): (s: CheckState)
    ensures s == Unchecked <==> selected == 0
    ensures s == Checked <==> selected != 0 && selected == total
    ensures s == PartiallyChecked <==> selected != 0 && selected != total
  {
    if selected == 0 then Unchecked
    else if selected == total then Checked
    else PartiallyChecked
  }

  /** The filenames `update_file_list` pre-selects: those whose default check
      is set, in list order. */
  function DefaultSelection(files: seq<FileEntry>): (r: seq<string>)
    ensures forall n :: n in r ==> n in Names(files)
    ensures forall i :: 0 <= i < |files| && files[i].defaultCheck ==> files[i].filename in r
  {
    if |files| == 0 then []
    else
      var rest := DefaultSelection(files[1..]);
      assert forall i :: 1 <= i < |files| ==> files[i] == files[1..][i - 1];
      assert Names(files) == [files[0].filename] + Names(files[1..]);
      if files[0].defaultCheck then [files[0].filename] + rest else rest
  }

  /** With distinct filenames, a file is pre-selected exactly when its
      default check is set, and no name is pre-selected twice. */
  lemma {:induction false} DefaultSelectionExact(files: seq<FileEntry>)
    requires Distinct(Names(files))
    ensures Distinct(DefaultSelection(files))
    ensures forall i :: 0 <= i < |files| ==> (files[i].filename in DefaultSelection(files) <==> files[i].defaultCheck)
  {
    if |files| > 0 {
      var tail := files[1..];
      assert Names(files) == [files[0].filename] + Names(tail);
      assert Distinct(Names(tail)) by {
        forall i, j | 0 <= i < j < |tail| ensures Names(tail)[i] != Names(tail)[j] {
          assert Names(files)[i + 1] != Names(files)[j + 1];
        }
      }
      DefaultSelectionExact(tail);
      var rest := DefaultSelection(tail);
      assert files[0].filename !in rest;
      forall i | 1 <= i < |files|
        ensures files[i].filename in DefaultSelection(files) <==> files[i].defaultCheck
      {
        assert files[i] == tail[i - 1];
        assert Names(files)[0] != Names(files)[i];
      }
    }
  }

  /** The after-close entries whose names were not listed before, in order;
      each is the first after-close entry carrying that name. */
  function NewFiles(after: seq<FileEntry>, before: seq<string>): (r: seq<FileEntry>)
    ensures forall f :: f in r <==> f in after && f.filename !in before
  {
    if |after| == 0 then []
    else
      var rest := NewFiles(after[1..], before);
      if after[0].filename !in before then [after[0]] + rest else rest
  }

  /** The new files are picked entry by entry, so they keep the order of
      the after-close list. */
  lemma {:induction false} NewFilesAppend(a: seq<FileEntry>, b: seq<FileEntry>, before: seq<string>)
    ensures NewFiles(a + b, before) == NewFiles(a, before) + NewFiles(b, before)
  {
    if |a| > 0 {
      assert (a + b)[1..] == a[1..] + b;
      NewFilesAppend(a[1..], b, before);
    } else {
      assert a + b == b;
    }
  }

  /** Append every name of `names` that `selected` does not hold yet. */
  function AppendAbsent(selected: seq<string>, names: seq<string>): (r: seq<string>)
    ensures forall n :: n in r <==> n in selected || n in names
    ensures |r| >= |selected| && r[..|selected|] == selected
    ensures Distinct(selected) ==> Distinct(r)
    decreases |names|
  {
    if |names| == 0 then selected
    else
      var next := if names[0] in selected then selected else selected + [names[0]];
      assert Distinct(selected) ==> Distinct(next);
      assert next[..|selected|] == selected;
      var r := AppendAbsent(next, names[1..]);
      assert r[..|selected|] == next[..|next|][..|selected|];
      assert forall n :: n in names <==> n == names[0] || n in names[1..];
      r
  }

  /** Rows mirror a selection that holds each changed file at most once. */
  predicate Mirrors(files: seq<FileEntry>, selected: seq<string>, checks: seq<bool>)
  {
    Distinct(Names(files)) &&
    Distinct(selected) &&
    (forall n :: n in selected ==> n in Names(files)) &&
    |checks| == |files| &&
    (forall i :: 0 <= i < |checks| ==> (checks[i] <==> files[i].filename in selected))
  }

  /** Check the row of `name` and select it if it is not selected yet. */
  function SelectName(files: seq<FileEntry>, selected: seq<string>, checks: seq<bool>, row: nat): (r: (seq<string>, seq<bool>))
    requires Mirrors(files, selected, checks) && row < |files|
    ensures Mirrors(files, r.0, r.1)
    ensures files[row].filename in r.0
    ensures forall n :: n in selected ==> n in r.0
  {
    var name := files[row].filename;
    var sel := if name in selected then selected else selected + [name];
    var chk := checks[row := true];
    assert forall i :: 0 <= i < |chk| && i != row ==> Names(files)[i] != Names(files)[row];
    assert name in Names(files) by { assert Names(files)[row] == name; }
    (sel, chk)
  }

  /** Check and select the row of every file of `add`. */
  method SelectFiles(files: seq<FileEntry>, selected: seq<string>, checks: seq<bool>, add: seq<FileEntry>)
    returns (sel: seq<string>, chk: seq<bool>)
    requires Mirrors(files, selected, checks)
    requires forall f :: f in add ==> f in files
    ensures Mirrors(files, sel, chk)
    ensures forall f :: f in add ==> f.filename in sel
    ensures forall n :: n in selected ==> n in sel
  {
    sel, chk := selected, checks;
    var i := 0;
    while i < |add|
      invariant 0 <= i <= |add|
      invariant Mirrors(files, sel, chk)
      invariant forall j :: 0 <= j < i ==> add[j].filename in sel
      invariant forall n :: n in selected ==> n in sel
    {
      assert add[i] in files;
      var row :| 0 <= row < |files| && files[row] == add[i];
      var r := SelectName(files, sel, chk, row);
      sel, chk := r.0, r.1;
      i := i + 1;
    }
  }

  class GitStatusDialog {
    var changedFiles: seq<FileEntry>
    var selectedFiles: seq<string>
    /** the check state of each row of the file list widget */
    var checks: seq<bool>
    var selectAll: CheckState
    var filesBefore: seq<string>
    var newFiles: seq<FileEntry>

    /** The widget rows mirror the selection, which holds each changed file
        at most once. */
    ghost predicate Valid()
      reads this
    {
      Mirrors(changedFiles, selectedFiles, checks)
    }

    /** `update_file_list()`: rebuild the rows, pre-selecting the files whose
        default check is set, then refresh the select-all box. */
    method UpdateFileList()
      requires Distinct(Names(changedFiles))
      modifies this
      ensures Valid()
      ensures changedFiles == old(changedFiles) && filesBefore == old(filesBefore) && newFiles == old(newFiles)
      ensures selectedFiles == DefaultSelection(changedFiles)
      ensures forall i :: 0 <= i < |checks| ==> checks[i] == changedFiles[i].defaultCheck
      ensures selectAll == SelectAllState(|selectedFiles|, |changedFiles|)
    {
      DefaultSelectionExact(changedFiles);
      var files := changedFiles;
      selectedFiles := DefaultSelection(files);
      checks := seq(|files|, i requires 0 <= i < |files| => files[i].defaultCheck);
      UpdateSelectAllCheckbox();
    }

    /** `update_select_all_checkbox()` */
    method UpdateSelectAllCheckbox()
      modifies this
      ensures selectAll == SelectAllState(|selectedFiles|, |changedFiles|)
      ensures changedFiles == old(changedFiles) && selectedFiles == old(selectedFiles) && checks == old(checks)
      ensures filesBefore == old(filesBefore) && newFiles == old(newFiles)
    {
      selectAll := SelectAllState(|selectedFiles|, |changedFiles|);
    }

    /** `on_item_changed(item)` after the user set row `row` to `checked`:
        the filename joins the selection if absent or leaves it if present;
        a row outside the list changes nothing. */
    method OnItemChanged(row: int, checked: bool)
      requires Valid()
      modifies this
      ensures Valid()
      ensures changedFiles == old(changedFiles) && filesBefore == old(filesBefore) && newFiles == old(newFiles)
      ensures !(0 <= row < |old(changedFiles)|) ==>
        selectedFiles == old(selectedFiles) && checks == old(checks) && selectAll == old(selectAll)
      ensures 0 <= row < |old(changedFiles)| ==>
        var name := changedFiles[row].filename;
        checks == old(checks)[row := checked] &&
        (checked ==> selectedFiles == (if name in old(selectedFiles) then old(selectedFiles) else old(selectedFiles) + [name])) &&
        (!checked ==> selectedFiles == RemoveFirst(old(selectedFiles), name)) &&
        selectAll == SelectAllState(|selectedFiles|, |changedFiles|)
    {
      if row < 0 || row >= |changedFiles| {
        return;
      }
      var name := changedFiles[row].filename;
      checks := checks[row := checked];
      if checked {
        if name !in selectedFiles {
          selectedFiles := selectedFiles + [name];
        }
      } else {
        RemoveFirstDistinct(selectedFiles, name);
        selectedFiles := RemoveFirst(selectedFiles, name);
      }
      forall i | 0 <= i < |checks| ensures checks[i] <==> changedFiles[i].filename in selectedFiles {
        if i != row {
          assert Names(changedFiles)[i] != Names(changedFiles)[row];
        }
      }
      UpdateSelectAllCheckbox();
    }

    /** `toggle_all_files_by_click(checked)`: select every changed file in
        list order, or none. */
    method ToggleAllFilesByClick(checked: bool)
      requires Valid()
      modifies this
      ensures Valid()
      ensures changedFiles == old(changedFiles) && filesBefore == old(filesBefore) && newFiles == old(newFiles)
      ensures old(selectAll) == Checked || checked ==>
        selectedFiles == Names(changedFiles) && selectAll == Checked &&
        forall i :: 0 <= i < |checks| ==> checks[i]
      ensures !(old(selectAll) == Checked || checked) ==>
        selectedFiles == [] && selectAll == Unchecked &&
        forall i :: 0 <= i < |checks| ==> !checks[i]
    {
      if selectAll == Checked || checked {
        selectedFiles := Names(changedFiles);
        checks := seq(|changedFiles|, i => true);
        selectAll := Checked;
      } else {
        selectedFiles := [];
        checks := seq(|changedFiles|, i => false);
        selectAll := Unchecked;
      }
    }

    /** `check_new_files_after_db_close()` given the status read after the
        database was closed: the new files are recorded and appended to the
        selection, but the list is then rebuilt by `update_file_list`, which
        replaces the selection with the default-checked files. */
    method CheckNewFilesAfterDbClose(after: seq<FileEntry>)
      requires Distinct(Names(after))
      modifies this
      ensures Valid()
      ensures newFiles == NewFiles(after, old(filesBefore))
      ensures changedFiles == after && filesBefore == old(filesBefore)
      ensures selectedFiles == DefaultSelection(after)
      ensures forall i :: 0 <= i < |checks| ==> checks[i] == changedFiles[i].defaultCheck
      ensures selectAll == SelectAllState(|selectedFiles|, |changedFiles|)
    {
      newFiles := NewFiles(after, filesBefore);
      selectedFiles := AppendAbsent(selectedFiles, Names(newFiles));
      changedFiles := after;
      UpdateFileList();
    }

    /** The behaviour the method's own comments describe: the new files stay
        selected after the list is rebuilt. */
    method CheckNewFilesAfterDbCloseKeepingNew(after: seq<FileEntry>)
      requires Distinct(Names(after))
      modifies this
      ensures Valid()
      ensures newFiles == NewFiles(after, old(filesBefore))
      ensures changedFiles == after && filesBefore == old(filesBefore)
      ensures forall f :: f in newFiles ==> f.filename in selectedFiles
      ensures forall n :: n in DefaultSelection(after) ==> n in selectedFiles
      ensures selectAll == SelectAllState(|selectedFiles|, |changedFiles|)
    {
      newFiles := NewFiles(after, filesBefore);
      changedFiles := after;
      UpdateFileList();
      var sel, chk := SelectFiles(after, selectedFiles, checks, newFiles);
      selectedFiles, checks := sel, chk;
      UpdateSelectAllCheckbox();
    }
  }

  /** The selection made by `check_new_files_after_db_close` keeps a new file
      only when its default check is set: a new file without it is dropped. */
  lemma NewFileWithoutDefaultCheckIsDropped(a: string)
    ensures var after := [FileEntry(a, " M", ChangeModified, false, false, false)];
      NewFiles(after, []) == after && DefaultSelection(after) == []
  {
  }
}
