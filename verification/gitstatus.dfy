/** The text parsers of the Git helper: lines of `git status --porcelain`
    (format v1) turned into the changed-file entries the commit dialog
    lists, the three outputs read by the force-pull preview, path
    normalisation and the detector of octal-escaped file names. Running
    Git is not modelled: its outputs are parameters. */
module GitStatus {
  import opened PyStr
  import opened PyList

  datatype FileEntry = FileEntry(
    filename: string, status: string, changeType: string,
    isCsv: bool, isDb: bool, defaultCheck: bool)

  const ChangeAdded: string := "추가됨"
  const ChangeDeleted: string := "삭제됨"
  const ChangeModified: string := "수정됨"
  const ChangeRenamed: string := "이름변경"

  // ---------------------------------------------------------------- one status line

  /** The file name the parser takes from a line of at least three
      characters: the regular expression `^(.{2})[\s\t](.+)$` when it
      matches, else the fallbacks (text after a space in position 2, else
      the text from position 2). */
  function StatusFilename(line: string): string
    requires |line| >= 3
  {
    if |line| >= 4 && IsSpace(line[2]) then line[3..]
    else if line[2] == ' ' then line[3..]
    else line[2..]
  }

  /** The branches reduce to one rule: the name starts after the third
      character when that character is whitespace, else at it; a line of
      exactly three characters never yields a usable name. */
  lemma StatusFilenameRule(line: string)
    requires |line| >= 3
    ensures |line| >= 4 && IsSpace(line[2]) ==> StatusFilename(line) == line[3..]
    ensures !IsSpace(line[2]) ==> StatusFilename(line) == line[2..]
    ensures |line| == 3 && IsSpace(line[2]) ==> IsBlank(StatusFilename(line))
  {
    if |line| == 3 && IsSpace(line[2]) && line[2] != ' ' {
      assert StatusFilename(line) == [line[2]];
    }
  }

  /** The change type, decided in the order A, D, M, R, ??. */
  function ChangeType(status: string): (t: string)
  {
    if StartsWith(status, "A") then ChangeAdded
    else if StartsWith(status, "D") then ChangeDeleted
    else if StartsWith(status, "M") then ChangeModified
    else if StartsWith(status, "R") then ChangeRenamed
    else if StartsWith(status, "??") then ChangeAdded
    else ChangeModified
  }

  lemma ChangeTypeCases(status: string)
    ensures ChangeType(status) == ChangeAdded <==> StartsWith(status, "A") || StartsWith(status, "??")
    ensures ChangeType(status) == ChangeDeleted <==> StartsWith(status, "D")
    ensures ChangeType(status) == ChangeRenamed <==> StartsWith(status, "R")
    ensures ChangeType(status) == ChangeModified <==>
      !StartsWith(status, "A") && !StartsWith(status, "D") && !StartsWith(status, "R") && !StartsWith(status, "??")
  {
  }

  /** Remove one leading `<cwd name>/`. */
  function StripCwdPrefix(name: string, cwdName: string): (r: string)
    ensures StartsWith(name, cwdName + "/") ==> name == cwdName + "/" + r
    ensures !StartsWith(name, cwdName + "/") ==> r == name
  {
    if StartsWith(name, cwdName + "/") then name[|cwdName| + 1..] else name
  }

  const Quotes: set<char> := {'"', '\''}

  /** `filename.replace('\\', '/').strip('"\'')`, then the directory prefix
      removed: no backslash is left, the name does not end in a quote, and
      it is what follows `<cwd name>/` in the unquoted name, or the whole
      unquoted name when that does not start with the prefix. */
  function NormalizeStatusName(name: string, cwdName: string): (r: string)
    ensures '\\' !in r
    ensures r == "" || r[|r| - 1] !in Quotes
    ensures var c := StripSet(Replace(name, "\\", "/"), Quotes);
      c == cwdName + "/" + r || (r == c && !StartsWith(c, cwdName + "/"))
  {
    var c := StripSet(Replace(name, "\\", "/"), Quotes);
    ReplaceNoPattern(name, "\\", "/");
    NoCharInInfix(Replace(name, "\\", "/"), c, '\\');
    StripCwdPrefix(c, cwdName)
  }

  /** A character that does not occur in a text does not occur in any infix of it. */
  lemma NoCharInInfix(s: string, t: string, ch: char)
    requires !Contains(s, [ch]) && Contains(s, t)
    ensures ch !in t
  {
    var k :| 0 <= k <= |s| - |t| && OccursAt(s, t, k);
    forall i | 0 <= i < |t|
      ensures t[i] != ch
    {
      assert t[i] == s[k..k + |t|][i] == s[k + i];
      assert s[k + i..k + i + 1] == [s[k + i]];
      assert !OccursAt(s, [ch], k + i);
    }
  }

  function IsCsv(name: string): bool { EndsWith(name, ".csv") }

  function IsDb(name: string): bool
  {
    EndsWith(name, ".db") && !StartsWith(name, "backup") && !Contains(name, "backup")
  }

  /** One line of the porcelain output: `None` for the lines the parser skips. */
  function ParseStatusLine(line: string, cwdName: string): (r: Option<FileEntry>)
    ensures r.Some? ==> |line| >= 3 && !IsBlank(StatusFilename(line))
    ensures r.Some? ==> r.value.status == line[..2] && r.value.changeType == ChangeType(line[..2])
    ensures r.Some? ==> r.value.defaultCheck == (IsCsv(r.value.filename) || IsDb(r.value.filename))
    ensures r.Some? ==> r.value.isCsv == IsCsv(r.value.filename) && r.value.isDb == IsDb(r.value.filename)
    ensures IsBlank(line) || |line| < 3 ==> r.None?
  {
    if IsBlank(line) || |line| < 3 then None
    else
      var raw := StatusFilename(line);
      if raw == "" || IsBlank(raw) then None
      else
        var name := NormalizeStatusName(raw, cwdName);
        var status := line[..2];
        Some(FileEntry(name, status, ChangeType(status), IsCsv(name), IsDb(name), IsCsv(name) || IsDb(name)))
  }

  /** A line gives an entry exactly when it is not blank, has three
      characters or more and a name part that is not blank; the entry's
      name is that part normalised. */
  lemma ParseStatusLineExact(line: string, cwdName: string)
    ensures var r := ParseStatusLine(line, cwdName);
      && (r.Some? <==> (!IsBlank(line) && |line| >= 3 && !IsBlank(StatusFilename(line))))
      && (r.Some? ==> r.value.filename == NormalizeStatusName(StatusFilename(line), cwdName))
  {
  }

  /** `e` is the entry of one of the lines. */
  predicate ParsedFrom(lines: seq<string>, cwdName: string, e: FileEntry)
  {
    exists i | 0 <= i < |lines| :: ParseStatusLine(lines[i], cwdName) == Some(e)
  }

  /** The entries of the lines that parse; each comes from one of the lines. */
  function ParseStatusLines(lines: seq<string>, cwdName: string): (r: seq<FileEntry>)
    ensures |r| <= |lines|
  {
    if |lines| == 0 then []
    else OptionList(ParseStatusLine(lines[0], cwdName)) + ParseStatusLines(lines[1..], cwdName)
  }

  /** The entry, if any, as a list of at most one element. */
  function OptionList(o: Option<FileEntry>): (r: seq<FileEntry>)
    ensures |r| <= 1
  {
    if o.Some? then [o.value] else []
  }

  /** The entries are exactly the entries of the lines that parse. */
  lemma {:induction false} ParseStatusLinesMembers(lines: seq<string>, cwdName: string)
    ensures forall e :: e in ParseStatusLines(lines, cwdName) <==> ParsedFrom(lines, cwdName, e)
  {
    if |lines| > 0 {
      ParseStatusLinesMembers(lines[1..], cwdName);
      assert forall i | 1 <= i < |lines| :: lines[i] == lines[1..][i - 1];
    }
  }

  /** Lines are parsed one by one, so the entries keep the order of the lines. */
  lemma {:induction false} ParseStatusLinesAppend(a: seq<string>, b: seq<string>, cwdName: string)
    ensures ParseStatusLines(a + b, cwdName) == ParseStatusLines(a, cwdName) + ParseStatusLines(b, cwdName)
  {
    if |a| > 0 {
      assert (a + b)[0] == a[0];
      assert (a + b)[1..] == a[1..] + b;
      ParseStatusLinesAppend(a[1..], b, cwdName);
      var head := OptionList(ParseStatusLine(a[0], cwdName));
      assert ParseStatusLines(a + b, cwdName) == head + ParseStatusLines(a[1..] + b, cwdName);
      assert ParseStatusLines(a, cwdName) == head + ParseStatusLines(a[1..], cwdName);
    } else {
      assert a + b == b;
    }
  }

  /** The final filter of `get_changed_files`. */
  predicate Keep(e: FileEntry)
  {
    |e.filename| < 200 && !Contains(e.filename, "/3") && !IsBlank(e.filename)
  }

  function KeepValid(entries: seq<FileEntry>): (r: seq<FileEntry>)
    ensures forall e :: e in r <==> e in entries && Keep(e)
    ensures |r| <= |entries|
  {
    if |entries| == 0 then []
    else if Keep(entries[0]) then [entries[0]] + KeepValid(entries[1..])
    else KeepValid(entries[1..])
  }

  /** `get_changed_files` for the porcelain output `stdout`, run in a
      directory named `cwdName`. */
  function ChangedFiles(stdout: string, cwdName: string): (r: seq<FileEntry>)
    ensures IsBlank(stdout) ==> r == []
    ensures forall e :: e in r ==> Keep(e)
  {
    if Strip(stdout) == "" then []
    else KeepValid(ParseStatusLines(Split(Strip(stdout), "\n"), cwdName))
  }

  /** For output that is not blank, the entries returned are exactly the
      entries of its lines that pass the final filter. */
  lemma ChangedFilesExact(stdout: string, cwdName: string)
    requires !IsBlank(stdout)
    ensures var lines := Split(Strip(stdout), "\n");
      forall e :: e in ChangedFiles(stdout, cwdName) <==> Keep(e) && ParsedFrom(lines, cwdName, e)
  {
    ParseStatusLinesMembers(Split(Strip(stdout), "\n"), cwdName);
  }

  /** Filtering works entry by entry, so it keeps the input order. */
  lemma {:induction false} KeepValidAppend(a: seq<FileEntry>, b: seq<FileEntry>)
    ensures KeepValid(a + b) == KeepValid(a) + KeepValid(b)
  {
    if |a| > 0 {
      assert (a + b)[1..] == a[1..] + b;
      KeepValidAppend(a[1..], b);
    } else {
      assert a + b == b;
    }
  }

  /** The entries `get_changed_files` keeps from two runs of lines are
      those of the first run followed by those of the second; a single line
      gives its entry exactly when it parses and passes the filter. */
  lemma KeptEntriesAppend(a: seq<string>, b: seq<string>, cwdName: string)
    ensures KeepValid(ParseStatusLines(a + b, cwdName)) ==
      KeepValid(ParseStatusLines(a, cwdName)) + KeepValid(ParseStatusLines(b, cwdName))
    ensures |a| == 1 ==> (KeepValid(ParseStatusLines(a, cwdName)) ==
      match ParseStatusLine(a[0], cwdName)
      case Some(e) => if Keep(e) then [e] else []
      case None => [])
  {
    ParseStatusLinesAppend(a, b, cwdName);
    KeepValidAppend(ParseStatusLines(a, cwdName), ParseStatusLines(b, cwdName));
    if |a| == 1 {
      assert a[1..] == [];
    }
  }

  // ---------------------------------------------------------------- force-pull preview

  datatype Preview = Preview(deleted: seq<string>, modified: seq<string>, created: seq<string>)

  /** One line of `git diff --name-status origin/<branch>`; the local side
      is the opposite of the remote's change. */
  function NameStatusLine(p: Preview, line: string): (q: Preview)
  {
    if line == "" then p
    else
      var parts := Split(line, "\t");
      if |parts| < 2 then p
      else
        var status := parts[0];
        if status == "D" then p.(created := p.created + [parts[1]])
        else if status == "A" then p.(deleted := p.deleted + [parts[1]])
        else if StartsWith(status, "M") then p.(modified := p.modified + [parts[1]])
        else if StartsWith(status, "R") && |parts| >= 3 then
          p.(deleted := p.deleted + [parts[1]], created := p.created + [parts[2]])
        else p
  }

  /** One line of `git clean -n -fd`: every `Would remove ` is deleted from it. */
  function CleanLine(p: Preview, line: string): Preview
  {
    if StartsWith(line, "Would remove ") then p.(deleted := p.deleted + [Replace(line, "Would remove ", "")])
    else p
  }

  /** One line of `git ls-files --others --exclude-standard`. */
  function UntrackedLine(p: Preview, line: string): (q: Preview)
    ensures line != "" ==> line in q.deleted
    ensures q.modified == p.modified && q.created == p.created
  {
    if line != "" && line !in p.deleted then p.(deleted := p.deleted + [line]) else p
  }

  datatype Stage = NameStatus | Clean | Untracked

  function Fold(p: Preview, lines: seq<string>, stage: Stage): Preview
    decreases |lines|
  {
    if |lines| == 0 then p
    else
      var q := match stage
        case NameStatus => NameStatusLine(p, lines[0])
        case Clean => CleanLine(p, lines[0])
        case Untracked => UntrackedLine(p, lines[0]);
      Fold(q, lines[1..], stage)
  }

  function Lines(out: string): seq<string>
  {
    Split(Strip(out), "\n")
  }

  /** `get_force_pull_preview` given the three command outputs; `None`
      stands for a command that failed, whose stage is then skipped. */
  function ForcePullPreview(diff: Option<string>, clean: Option<string>, others: Option<string>): Preview
  {
    var p0 := Preview([], [], []);
    var p1 := if diff.Some? then Fold(p0, Lines(diff.value), NameStatus) else p0;
    var p2 := if clean.Some? then Fold(p1, Lines(clean.value), Clean) else p1;
    if others.Some? then Fold(p2, Lines(others.value), Untracked) else p2
  }

  /** Each name-status line grows the lists by at most its own entries: a
      line with fewer than two tab-separated fields changes nothing, a
      deletion upstream is a new local file and an addition upstream a
      deleted one. */
  lemma NameStatusLineCases(p: Preview, line: string)
    ensures line == "" || !Contains(line, "\t") ==> NameStatusLine(p, line) == p
    ensures StartsWith(line, "D\t") ==>
      (|Split(line, "\t")| >= 2 &&
       NameStatusLine(p, line) == p.(created := p.created + [Split(line, "\t")[1]]))
    ensures StartsWith(line, "A\t") ==>
      (|Split(line, "\t")| >= 2 &&
       NameStatusLine(p, line) == p.(deleted := p.deleted + [Split(line, "\t")[1]]))
  {
    if line == "" || !Contains(line, "\t") {
      NameStatusNoTab(p, line);
    }
    if StartsWith(line, "D\t") || StartsWith(line, "A\t") {
      StatusField(line);
    }
  }

  lemma NameStatusNoTab(p: Preview, line: string)
    requires line == "" || !Contains(line, "\t")
    ensures NameStatusLine(p, line) == p
  {
    if line != "" {
      assert Split(line, "\t") == [line];
    }
  }

  /** A line opening with a one-letter status and a tab splits into that
      letter and at least one more field. */
  lemma StatusField(line: string)
    requires StartsWith(line, "D\t") || StartsWith(line, "A\t")
    ensures |Split(line, "\t")| >= 2 && Split(line, "\t")[0] == [line[0]]
    ensures line[0] == 'D' || line[0] == 'A'
  {
    assert line[..2] == [line[0], line[1]];
    SplitFirstField(line);
    assert line[..1] == [line[0]];
  }

  lemma SplitFirstField(line: string)
    requires |line| >= 2 && line[1] == '\t' && line[0] != '\t'
    ensures |Split(line, "\t")| >= 2 && Split(line, "\t")[0] == line[..1]
  {
    assert OccursAt(line, "\t", 1);
    assert !OccursAt(line, "\t", 0);
    assert Find(line, "\t") == 1;
  }

  /** A line `<status><TAB><name>` with a tab-free status and name: a
      deletion upstream is a new local file, an addition upstream a deleted
      one, a status starting with `M` a modified file; any other status
      (a rename among them, which needs a third field) changes nothing. */
  lemma NameStatusTwoFields(p: Preview, status: string, name: string)
    requires '\t' !in status && '\t' !in name
    ensures var q := NameStatusLine(p, status + "\t" + name);
      && (status == "D" ==> q == p.(created := p.created + [name]))
      && (status == "A" ==> q == p.(deleted := p.deleted + [name]))
      && (StartsWith(status, "M") ==> q == p.(modified := p.modified + [name]))
      && (status != "D" && status != "A" && !StartsWith(status, "M") ==> q == p)
  {
    assert status + "\t" + name == status + ['\t'] + name;
    SplitAtSeparator(status, name, '\t');
  }

  /** A rename `R<score><TAB><old><TAB><new>`: the old name is deleted
      and the new one created locally. */
  lemma NameStatusRename(p: Preview, status: string, oldName: string, newName: string)
    requires '\t' !in status && '\t' !in oldName && '\t' !in newName
    requires StartsWith(status, "R")
    ensures NameStatusLine(p, status + "\t" + oldName + "\t" + newName)
      == p.(deleted := p.deleted + [oldName], created := p.created + [newName])
  {
    var line := status + "\t" + oldName + "\t" + newName;
    SplitThree(status, oldName, newName);
    assert line[|status|] == '\t';
    RenameParts(p, line, status, oldName, newName);
  }

  /** A non-empty line that splits into an `R…` status and two names. */
  lemma RenameParts(p: Preview, line: string, status: string, oldName: string, newName: string)
    requires line != "" && Split(line, "\t") == [status, oldName, newName]
    requires StartsWith(status, "R")
    ensures NameStatusLine(p, line) == p.(deleted := p.deleted + [oldName], created := p.created + [newName])
  {
    assert status[0] == 'R';
    assert status != "D" && status != "A" && !StartsWith(status, "M");
  }

  lemma SplitThree(a: string, b: string, c: string)
    requires '\t' !in a && '\t' !in b && '\t' !in c
    ensures Split(a + "\t" + b + "\t" + c, "\t") == [a, b, c]
  {
    assert a + "\t" + b + "\t" + c == a + ['\t'] + (b + ['\t'] + c);
    SplitFirstPiece(a, b + ['\t'] + c, '\t');
    SplitAtSeparator(b, c, '\t');
  }

  /** One line of any stage only appends to the three lists; the clean and
      untracked stages touch only the deleted files. */
  lemma LineExtends(p: Preview, line: string, stage: Stage)
    ensures var q := match stage
        case NameStatus => NameStatusLine(p, line)
        case Clean => CleanLine(p, line)
        case Untracked => UntrackedLine(p, line);
      && p.deleted <= q.deleted && p.modified <= q.modified && p.created <= q.created
      && (stage != NameStatus ==> q.modified == p.modified && q.created == p.created)
  {
  }

  /** A whole stage only appends to the three lists; the clean and
      untracked stages touch only the deleted files. */
  lemma {:induction false} FoldExtends(p: Preview, lines: seq<string>, stage: Stage)
    ensures var q := Fold(p, lines, stage);
      && p.deleted <= q.deleted && p.modified <= q.modified && p.created <= q.created
      && (stage != NameStatus ==> q.modified == p.modified && q.created == p.created)
    decreases |lines|
  {
    if |lines| > 0 {
      var q := match stage
        case NameStatus => NameStatusLine(p, lines[0])
        case Clean => CleanLine(p, lines[0])
        case Untracked => UntrackedLine(p, lines[0]);
      LineExtends(p, lines[0], stage);
      FoldExtends(q, lines[1..], stage);
      PrefixTrans(p.deleted, q.deleted, Fold(q, lines[1..], stage).deleted);
      PrefixTrans(p.modified, q.modified, Fold(q, lines[1..], stage).modified);
      PrefixTrans(p.created, q.created, Fold(q, lines[1..], stage).created);
    }
  }

  lemma PrefixTrans(a: seq<string>, b: seq<string>, c: seq<string>)
    requires a <= b && b <= c
    ensures a <= c
  {
    assert c[..|a|] == c[..|b|][..|a|];
  }

  /** Every `Would remove <name>` line of the clean stage lists the name
      among the deleted files. */
  lemma {:induction false} CleanCollects(p: Preview, lines: seq<string>)
    ensures forall i | 0 <= i < |lines| && StartsWith(lines[i], "Would remove ") ::
      Replace(lines[i], "Would remove ", "") in Fold(p, lines, Clean).deleted
    decreases |lines|
  {
    if |lines| > 0 {
      var q := CleanLine(p, lines[0]);
      var r := Fold(q, lines[1..], Clean);
      CleanCollects(q, lines[1..]);
      FoldExtends(q, lines[1..], Clean);
      forall i | 0 <= i < |lines| && StartsWith(lines[i], "Would remove ")
        ensures Replace(lines[i], "Would remove ", "") in r.deleted
      {
        if i == 0 {
          var x := Replace(lines[0], "Would remove ", "");
          assert q.deleted[|q.deleted| - 1] == x;
          assert r.deleted[|q.deleted| - 1] == x;
        } else {
          assert lines[i] == lines[1..][i - 1];
        }
      }
    }
  }

  /** The untracked stage lists every non-empty name, adds no other name,
      and adds a name only when it is not listed yet. */
  lemma {:induction false} UntrackedCollects(p: Preview, lines: seq<string>)
    ensures var q := Fold(p, lines, Untracked);
      && (forall i | 0 <= i < |lines| && lines[i] != "" :: lines[i] in q.deleted)
      && (forall x | x in q.deleted :: x in p.deleted || x in lines)
      && (forall i | |p.deleted| <= i < |q.deleted| :: q.deleted[i] !in q.deleted[..i])
    decreases |lines|
  {
    if |lines| > 0 {
      var q := UntrackedLine(p, lines[0]);
      var r := Fold(q, lines[1..], Untracked);
      UntrackedCollects(q, lines[1..]);
      FoldExtends(q, lines[1..], Untracked);
      assert r.deleted[..|q.deleted|] == q.deleted;
      forall i | 0 <= i < |lines| && lines[i] != "" ensures lines[i] in r.deleted {
        if i == 0 {
          var k :| 0 <= k < |q.deleted| && q.deleted[k] == lines[0];
          assert r.deleted[k] == lines[0];
        } else {
          assert lines[i] == lines[1..][i - 1];
        }
      }
      forall x | x in r.deleted ensures x in p.deleted || x in lines {
        if x in q.deleted && x !in p.deleted {
          assert x == lines[0];
        } else if x !in q.deleted {
          assert x in lines[1..];
        }
      }
      forall i | |p.deleted| <= i < |r.deleted| ensures r.deleted[i] !in r.deleted[..i] {
        if i < |q.deleted| {
          assert i == |p.deleted| && q.deleted == p.deleted + [lines[0]];
          assert r.deleted[..i] == p.deleted;
        }
      }
    }
  }

  /** `get_force_pull_preview`: the modified and new files are those of the
      name-status stage alone (none when that command failed); the later
      stages keep its deleted files and add every `Would remove` name and
      every untracked name. */
  /** The two later stages of the preview, after any diff stage `p1`. */
  lemma LaterStages(p1: Preview, clean: Option<seq<string>>, others: Option<seq<string>>)
    ensures var p2 := if clean.Some? then Fold(p1, clean.value, Clean) else p1;
      var r := if others.Some? then Fold(p2, others.value, Untracked) else p2;
      && r.modified == p1.modified && r.created == p1.created
      && p1.deleted <= r.deleted
      && (clean.Some? ==> forall i | 0 <= i < |clean.value| && StartsWith(clean.value[i], "Would remove ") ::
            Replace(clean.value[i], "Would remove ", "") in r.deleted)
      && (others.Some? ==> forall i | 0 <= i < |others.value| && others.value[i] != "" ::
            others.value[i] in r.deleted)
  {
    var p2 := if clean.Some? then Fold(p1, clean.value, Clean) else p1;
    var r := if others.Some? then Fold(p2, others.value, Untracked) else p2;
    if clean.Some? {
      FoldExtends(p1, clean.value, Clean);
      CleanCollects(p1, clean.value);
    }
    if others.Some? {
      FoldExtends(p2, others.value, Untracked);
      UntrackedCollects(p2, others.value);
      PrefixTrans(p1.deleted, p2.deleted, r.deleted);
      forall x | x in p2.deleted
        ensures x in r.deleted
      {
        var k :| 0 <= k < |p2.deleted| && p2.deleted[k] == x;
        assert r.deleted[k] == x;
      }
    }
  }

  lemma ForcePullPreviewStages(diff: Option<string>, clean: Option<string>, others: Option<string>)
    ensures var r := ForcePullPreview(diff, clean, others);
      var p0 := Preview([], [], []);
      var p1 := if diff.Some? then Fold(p0, Lines(diff.value), NameStatus) else p0;
      && r.modified == p1.modified && r.created == p1.created
      && p1.deleted <= r.deleted
      && (diff.None? ==> r.modified == [] && r.created == [])
      && (clean.Some? ==> forall i | 0 <= i < |Lines(clean.value)| && StartsWith(Lines(clean.value)[i], "Would remove ") ::
            Replace(Lines(clean.value)[i], "Would remove ", "") in r.deleted)
      && (others.Some? ==> forall i | 0 <= i < |Lines(others.value)| && Lines(others.value)[i] != "" ::
            Lines(others.value)[i] in r.deleted)
  {
    var cl := if clean.Some? then Some(Lines(clean.value)) else None;
    var ot := if others.Some? then Some(Lines(others.value)) else None;
    LaterStages(if diff.Some? then Fold(Preview([], [], []), Lines(diff.value), NameStatus) else Preview([], [], []), cl, ot);
  }


  /** The untracked stage never lists a name twice. */
  lemma {:induction false} UntrackedNoDuplicates(p: Preview, lines: seq<string>)
    requires Distinct(p.deleted)
    ensures Distinct(Fold(p, lines, Untracked).deleted)
    decreases |lines|
  {
    if |lines| > 0 {
      UntrackedNoDuplicates(UntrackedLine(p, lines[0]), lines[1..]);
    }
  }

  // ---------------------------------------------------------------- path helpers

  /** `_normalize_git_path(filename, cwd)`: quotes stripped, then one
      leading `<cwd name>/` removed. `None` stands for the remaining case,
      an absolute path under the working directory, which the source hands
      to `os.path.relpath` and which is not modelled. */
  function NormalizeGitPath(filename: string, cwdName: string, cwdPath: string): (r: Option<string>)
    ensures var c := StripSet(filename, Quotes);
      (StartsWith(c, cwdName + "/") ==> r == Some(c[|cwdName| + 1..])) &&
      (!StartsWith(c, cwdName + "/") && !StartsWith(c, cwdPath) ==> r == Some(c)) &&
      (r.None? <==> !StartsWith(c, cwdName + "/") && StartsWith(c, cwdPath))
  {
    var c := StripSet(filename, Quotes);
    if StartsWith(c, cwdName + "/") then Some(c[|cwdName| + 1..])
    else if StartsWith(c, cwdPath) then None
    else Some(c)
  }

  /** A normalised path is what follows `<cwd name>/` in the unquoted
      name, or the unquoted name itself when it has no such prefix; it
      never ends in a quote. No result is given only for a name under the
      absolute working directory. */
  lemma NormalizedPathParts(filename: string, cwdName: string, cwdPath: string)
    ensures var c := StripSet(filename, Quotes);
      var r := NormalizeGitPath(filename, cwdName, cwdPath);
      && (r.Some? ==> c == cwdName + "/" + r.value || (r.value == c && !StartsWith(c, cwdName + "/")))
      && (r.Some? && r.value != "" ==> r.value[|r.value| - 1] !in Quotes)
      && (r.None? ==> StartsWith(c, cwdPath))
  {
    var c := StripSet(filename, Quotes);
    if StartsWith(c, cwdName + "/") {
      var v := c[|cwdName| + 1..];
      assert c == c[..|cwdName| + 1] + v;
      if v != "" {
        assert v[|v| - 1] == c[|c| - 1];
      }
    }
  }

  /** A quoted path under the repository folder normalises to the path
      relative to that folder. */
  lemma NormalizeQuotedRelative(cwdName: string, rel: string, cwdPath: string)
    requires cwdName != "" && cwdName[0] !in Quotes
    requires rel != "" && rel[|rel| - 1] !in Quotes
    ensures NormalizeGitPath("\"" + cwdName + "/" + rel + "\"", cwdName, cwdPath) == Some(rel)
  {
    var t := cwdName + "/" + rel;
    var q := "\"" + cwdName + "/" + rel + "\"";
    assert q == "\"" + t + "\"";
    assert t[0] == cwdName[0] && t[|t| - 1] == rel[|rel| - 1];
    StripQuotes(t);
    assert StartsWith(t, cwdName + "/") by {
      assert t[..|cwdName| + 1] == cwdName + "/";
    }
    assert t[|cwdName| + 1..] == rel;
  }

  /** Surrounding double quotes come off a text that starts and ends with
      no quote. */
  lemma StripQuotes(t: string)
    requires t != "" && t[0] !in Quotes && t[|t| - 1] !in Quotes
    ensures StripSet("\"" + t + "\"", Quotes) == t
  {
    var q := "\"" + t + "\"";
    assert q[0] == '"' && q[|q| - 1] == '"';
    assert q[1] == t[0] && q[|q| - 2] == t[|t| - 1];
    StripSetBetween(q, Quotes, 1, |q| - 1);
    assert q[1..|q| - 1] == t;
  }

  predicate IsOctal(c: char) { '0' <= c <= '7' }

  /** `/3[0-7][0-7]/[0-7]{3}/[0-7]{3}` matches at position `k`. */
  predicate OctalEscapeAt(s: string, k: int)
  {
    0 <= k && k + 12 <= |s| &&
    s[k] == '/' && s[k + 1] == '3' && IsOctal(s[k + 2]) && IsOctal(s[k + 3]) &&
    s[k + 4] == '/' && IsOctal(s[k + 5]) && IsOctal(s[k + 6]) && IsOctal(s[k + 7]) &&
    s[k + 8] == '/' && IsOctal(s[k + 9]) && IsOctal(s[k + 10]) && IsOctal(s[k + 11])
  }

  /** The scan `re.search` performs: the first position at or after `from`
      where the pattern matches. */
  function SearchOctalEscape(s: string, from: nat): (r: Option<nat>)
    ensures r.Some? ==> from <= r.value && OctalEscapeAt(s, r.value)
    ensures r.Some? ==> forall k :: from <= k < r.value ==> !OctalEscapeAt(s, k)
    ensures r.None? ==> forall k :: from <= k ==> !OctalEscapeAt(s, k)
    decreases |s| - from
  {
    if from + 12 > |s| then None
    else if OctalEscapeAt(s, from) then Some(from)
    else SearchOctalEscape(s, from + 1)
  }

  /** `_is_corrupted_filename(name)` */
  function IsCorruptedFilename(name: string): (b: bool)
    ensures b <==> (exists k :: OctalEscapeAt(name, k)) || |name| > 500
  {
    SearchOctalEscape(name, 0).Some? || |name| > 500
  }
}
