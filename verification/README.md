# AutoCalEditor code generator: a Dafny model

AutoCalEditor keeps calibration data in spreadsheet-like sheets and turns
them into C source and header files. Every sheet row carries an opcode
(`$TITLE`, `$DEFINE`, `$VARIABLE`, `$ARRAY`/`$ARR_MEM`, `$STR_MEM`,
`$ENUM_MEM`, `$PRJT_DEF`, …). The generator reads the rows of a sheet,
stores them per title, and writes each one as a tab-aligned C line.
Around that core, the project models:

- the file-information sheet;
- the make-code driver, which joins the sheets of several projects into
  `#if`/`#elif` blocks;
- the navigator that lists a sheet's items;
- the small caches and registries used while doing so.

The model follows the program's own structure, one Dafny module per
concern:

| module | file | what it models |
|---|---|---|
| `PyStr`, `PyList` | pystr.dfy, pylist.dfy | the Python string and list operations the program relies on (`strip`, `ljust`, `split`, `replace`, `int`, `str`, `list.remove`), defined once |
| `Info` | info.dfy | core/info.py: `ReadCell`, the opcode table, column letters, `WriteErrCell`/`WriteErrMsg` with the error list and name width, `ExistEmptyStr` |
| `Arrays`, `ArrMem` | arrinfo.dfy, arrmem.dfy | array size and type checks, `readArrMem`'s column bookkeeping, and the rows `writeArrMem` produces |
| `FloatSuffix` | floatsuffix.dfy | `_apply_float_suffix` on `FLOAT32` values |
| `Pad`, `DeclFormat` | pad.dfy, declfmt.dfy | `calculatePad` with its memo, and the declaration lines of `writeCalList` |
| `Prjt` | prjt.dfy | the `$PRJT_DEF` nesting machine (`prjtList`/`prjtDepth`) and the levels a `$TITLE` row closes |
| `CalRead`, `CalWrite`, `CalLists` | calread.dfy, calwrite.dfy, callist.dfy | the `CalList` object: the cell cache, the opcode check, `saveTempList` and `setPragmaSection` (read phase); `writeCalList`, `writeCode` and the write loop (write phase). The first two modules are the specification on values; `CalLists.CalList` is the class whose methods are proved to follow it |
| `MakeCodes` | makecode.dfy | code_generator/make_code.py: project-information checks, the banners, the includes, the per-title code blocks and the end of file |
| `FileInfos` | fileinfo.dfy | code_generator/file_info.py: locating and reading the file-information sheet |
| `Navigator` | navigator.dfy | navigator/navigator_core.py: header detection and item parsing |
| `MemCache` | memcache.dfy | cached_db_processor.py: the LRU `MemoryCache` and the two-tier lookup |
| `DbManager` | dbmanager.dfy | data_manager/db_manager.py: database names, the registry and its current pointer |
| `GitStatus`, `GitDialog` | gitstatus.dfy, gitdialog.dfy | status-line parsing in utils/git_manager.py and the selection logic of ui/git_status_dialog.py |
| `TermLogger` | termlogger.dfy | main.py's terminal logger |
| `Sizes`, `ProdMode`, `UiMode`, `Phase3Mode` | sizes.dfy, prodmode.dfy, uimode.dfy, phase3mode.dfy | the three processing-mode selectors |

Configuration is fixed as the program ships it:

- the tab size is 4;
- the float suffix is enabled;
- no compiled (Cython) accelerator is available, so every Python
  fallback path is the one modelled.

## Model

| member | source | states |
|---|---|---|
| Info.LookupOpCode | core/info.py:134-154 | a key found in the opcode table never maps to `NONE` |
| Info.OpCodeTableBijective | core/info.py:134-154 | every mode but `NONE` has a key that looks it up, and a key that finds a mode is that mode's key, so no two keys share a mode |
| Info.ReadCell | core/info.py:186-219 | inside the grid the stripped text of the cell, `""` for an empty cell; `""` for a row or column past the end |
| Info.ReadCellStripped | core/info.py:186-219 | what a cell read returns has no whitespace at either end |
| Info.ColumnLetters | core/info.py:240-251 | the column part of a cell name is one or two letters |
| Info.ColumnLettersStandard | core/info.py:240-251 | columns 1 to 702 are named A…Z, AA…ZZ, and the name read back in bijective base 26 is the column |
| Info.ColumnLettersOnto | core/info.py:240-251 | every one- or two-letter name is the name of exactly its own column |
| Info.ErrorLog.constructor | core/info.py:180-183 | the error list and the file list start empty and the name width at 0 |
| Info.ErrorLog.WriteErrMsg | core/info.py:221-231 | the message is appended with a two-space indent and nothing else changes |
| Info.ErrorLog.WriteErrCell | core/info.py:233-306 | appends `"  $<sheet>[<letters><row>]:"` followed by the error's text; the name width becomes the larger of itself and the UTF-8 length of the cell reference |
| Info.Widest | core/info.py:255-256 | the name width never shrinks |
| Info.LogStep | core/info.py:233-306 | one more cell error appends exactly its line and widens the name width to cover its cell reference |
| Info.WidestAppend | core/info.py:255-256 | writing `a` and then `b` leaves the same width as writing `a + b` |
| Info.ExistEmptyStr | core/info.py:309-357 | an empty list counts as a blank line; for `1 <= cnt <= len` the answer is whether the `cnt`-th line from the end is empty or ends in CRLF; a larger `cnt` looks at the first line; `cnt <= 0` always answers true |
| Info.ErrLinesAppend | core/info.py:233-306 | writing two lists of errors one after the other writes their concatenation |
| Sizes.Sum | main_phase3_production.py:90 | the total of no files is 0, and no single size exceeds the total |
| Sizes.AverageExceeds | main_phase3_production.py:91-95 | the average exceeds a bound exactly when the total exceeds the bound times the count |
| ProdMode.ChooseOptimalProcessor | main_phase3_production.py:87-102 | with four or more files: "async" exactly when the average is above 500000 bytes, otherwise "distributed"; two or three files give "cached"; none or one give "sequential" |
| UiMode.ExistingTotal | ui_backend_integration_strategy.py:87 | the total counts every existing file's size |
| UiMode.ChooseOptimalProcessor | ui_backend_integration_strategy.py:81-99 | "none" exactly for an empty list; "async" for four or more files averaging above 500000 bytes when async processing is enabled and available; "distributed" in the same case when only distributed processing is; "cached" for two or more files not in that case when caching is enabled and available; "sequential" otherwise |
| UiMode.MissingFileAddsNothing | ui_backend_integration_strategy.py:87-88 | a missing file adds nothing to the total, although it still counts in the average's denominator |
| Phase3Mode.ChooseProcessingMode | phase3_integrated_processor.py:83-100 | at or above the hybrid threshold with distribution enabled: "distributed_async" exactly when the average is above 500000 bytes, otherwise "distributed"; below it, "async" exactly when there are two or more files and async is enabled, otherwise "sequential" |
| Phase3Mode.SmallFiles | phase3_integrated_processor.py:163 | every file kept is below 200000 bytes |
| Phase3Mode.LargeFiles | phase3_integrated_processor.py:164 | every file kept is 200000 bytes or more |
| Phase3Mode.PartitionIsExact | phase3_integrated_processor.py:163-164 | together the two groups hold exactly the batch, counting repeats |
| TermLogger.RecordOfLine | main.py:140-142 | a completed line is logged exactly when it is not blank, as `"<stream>: <line stripped>"` with no whitespace at either end of the text |
| TermLogger.LogRecords | main.py:140-142 | the completed lines give at most one record each |
| TermLogger.LogRecordsAppend | main.py:140-142 | logging `a + b` gives the records of `a` followed by those of `b` |
| TermLogger.CompletedLineRecords | main.py:140-142 | the loop over the completed lines logs exactly the records the specification gives, in order |
| TermLogger.TerminalLogger.constructor | main.py:125-129 | nothing forwarded, nothing logged, an empty buffer |
| TermLogger.TerminalLogger.Write | main.py:131-142 | the text is forwarded; without a newline it is only added to the buffer; with one, every completed line is logged in order, the unfinished tail stays in the buffer, and the lines and the tail joined by newlines are exactly the old buffer plus the text |
| TermLogger.TerminalLogger.Flush | main.py:144-149 | a buffer with visible text is logged stripped and cleared; a blank buffer stays as it is; nothing is forwarded |
| PyStr.Strip | core/info.py:214 | the stripped text is no longer than the input, has no whitespace at either end, and is empty exactly when the input is all whitespace |
| PyStr.StripSet | code_generator/cal_list.py:823 | the text stripped of a character set is an infix of the input with no member of the set at either end, empty exactly when every character is in the set |
| PyStr.RStrip | code_generator/cal_list.py:1792 | a prefix of the input that ends in a visible character, with only whitespace cut away |
| PyStr.LJust | code_generator/cal_list.py:1742 | the text followed by fill characters up to the width, unchanged when already that wide |
| PyStr.Split | main.py:137 | at least one piece; joining the pieces with the separator gives back the text; no piece contains the separator; a text without the separator is its own single piece |
| PyStr.Replace | code_generator/cal_list.py:823 | a text without the pattern is left unchanged |
| PyStr.ReplaceNoPattern | code_generator/make_code.py:816-822 | replacing a one-character pattern by a text without that character leaves no occurrence of it |
| PyStr.PyIntOfNatToString | code_generator/cal_list.py:626-630 | `int(str(n)) == n` for every natural number |
| PyStr.PyIntOfNegatedDigits | code_generator/cal_list.py:626-630 | `int("-" + digits)` is the negated value of the digits |
| PyStr.CaseFolding | code_generator/make_code.py:816-822 | upper-casing leaves no lower-case ASCII letter and lower-casing no upper-case one; each is idempotent and each undoes the other up to case, so a prefix compared after `upper()` or `lower()` ignores ASCII case |
| PyStr.Utf8CharLen | core/info.py:255-256 | one to four bytes per character, one exactly for ASCII (RFC 3629, section 3) |
| PyStr.Utf8Len | core/info.py:255-256 | the byte length lies between the character count and four times it |
| PyList.RemoveFirst | cached_db_processor.py:58-59 | `list.remove`: an absent element leaves the list as it is; a present one makes it one shorter; nothing new appears and every other element stays |
| PyList.FirstIndex | cached_db_processor.py:58-59 | the index `list.remove` looks for: it holds the element and no earlier position does |
| PyList.RemoveFirstAt | cached_db_processor.py:58-59 | `list.remove` cuts the list around the first occurrence of the element, so the rest keeps its order |
| PyList.RemoveFirstDistinct | cached_db_processor.py:58-59 | removing from a duplicate-free list leaves it duplicate-free and without the removed element |
| PyStr.PyInt | code_generator/cal_list.py:626-630 | `int(s)` succeeds only on a text with something left after stripping, and a stripped run of digits fails only when empty |
| PyStr.SignedDigits | code_generator/cal_list.py:626-630 | an optional sign then digits: succeeds only on a non-empty text, and a run of digits fails only when empty |
| PyStr.PyIntOfDigits | code_generator/cal_list.py:626-630 | `int` of a run of digits is its decimal value |
| PyStr.NatToString | code_generator/cal_list.py:1876 | `str(n)` is a non-empty run of ASCII digits whose decimal value is `n` |
| PyStr.NatToStringInjective | code_generator/cal_list.py:1876 | different numbers give different texts, so the array keys `sheet_name_count` never collide on the count |
| PyStr.Join | code_generator/cal_list.py:1140 | joining one piece gives that piece and joining none gives the empty text |
| PyStr.Repeat | code_generator/cal_list.py:1742 | `n` copies of the fill character, none for `n` at or below zero |
| PyStr.Find | code_generator/make_code.py:446 | the first place the pattern occurs, or the length when it does not occur |
| PyStr.SplitAtSeparator | code_generator/make_code.py:446-448 | a text with the separator once splits into the parts before and after it |
| MemCache.MemoryCache.constructor | cached_db_processor.py:47-53 | an empty cache and access order, both counters at 0, the given capacity |
| MemCache.MemoryCache.Get | cached_db_processor.py:55-65 | a hit returns the stored value, counts a hit and moves the key to the most recent end of the order; a miss returns nothing, counts a miss and leaves the order; the entries never change; the cache invariant (the order lists exactly the keys, without repeats, within capacity) is kept |
| MemCache.MemoryCache.Set | cached_db_processor.py:67-78 | an existing key is overwritten and moved to the most recent end; a new key in a full cache first evicts the least recently used key; otherwise the key is added at the most recent end; the invariant, and with it the capacity bound, is kept |
| MemCache.MemoryCache.Delete | cached_db_processor.py:80-84 | the key leaves both the entries and the order; an absent key changes nothing |
| MemCache.MemoryCache.Clear | cached_db_processor.py:86-91 | entries, order and both counters are reset |
| MemCache.MemoryCache.GetStats | cached_db_processor.py:93-104 | the counters, the capacity and the number of entries (equal to the length of the order); the hit rate is hits in percent of lookups, between 0 and 100, and 0 before any lookup |
| MemCache.EvictOldest | cached_db_processor.py:73-75 | dropping the head of the order keeps it an exact, duplicate-free listing of the remaining keys |
| MemCache.AppendNew | cached_db_processor.py:77-78 | listing a new key last keeps the order exact and duplicate-free and grows it by one |
| MemCache.DistinctCard | cached_db_processor.py:73 | a duplicate-free listing of the keys is as long as the key set, so `len(self.cache)` is the length of the order |
| MemCache.TwoTierCache.constructor | cached_db_processor.py:180-201 | the tiers given and both statistics at 0 |
| MemCache.TwoTierCache.GetFromCache | cached_db_processor.py:217-237 | a Redis hit is returned and copied into the memory tier, which then holds what `MemoryCache.set` leaves (the key moved or added last, the least recently used key evicted from a full tier) with its counters unchanged; otherwise a memory hit is returned, counted as a hit there and moved to the most recent end; a miss in both tiers counts a miss in memory and changes nothing else there; exactly one of the hit and miss counters goes up, the miss counter exactly when both tiers miss |
| MemCache.TwoTierCache.SetToCache | cached_db_processor.py:239-245 | the value is stored in every tier that is present; the memory tier ends as `MemoryCache.set` leaves it (an existing key overwritten and moved last, or the least recently used key evicted from a full tier and the new key added last) with its counters unchanged; the statistics do not change |
| DbManager.BaseName | data_manager/db_manager.py:44 | the text after the last `/` or `\`: it holds no separator and ends the path |
| DbManager.StripExtension | data_manager/db_manager.py:44 | the name itself, or the prefix before its last dot when something other than dots precedes that dot |
| DbManager.NumberedInjective | data_manager/db_manager.py:48 | different counters give different `base_k` names |
| DbManager.DBManager.constructor | data_manager/db_manager.py:22-29 | no databases and no current one |
| DbManager.DBManager.GenerateDbName | data_manager/db_manager.py:31-50 | a name that is not yet a key: the base name when that is free, otherwise `base_k` where every `base_j` with `1 <= j < k` is taken |
| DbManager.DBManager.AddDbHandler | data_manager/db_manager.py:52-66 | the handler is stored under the name, a new name goes last in insertion order, and it becomes current exactly when there was no current database or `replace_existing` is set; the registry invariant (names without repeats, names and keys alike, current is a key) is kept |
| DbManager.DBManager.AddDatabase | data_manager/db_manager.py:68-105 | a missing file changes nothing (the FileNotFoundError); otherwise the file is stored under a fresh name which is returned; with `replace_existing` it becomes the only and current database, without it is appended and becomes current only when there was none |
| DbManager.DBManager.SwitchDatabase | data_manager/db_manager.py:175-191 | true exactly for a known name, which becomes current; an unknown name changes nothing |
| DbManager.DBManager.RemoveDatabase | data_manager/db_manager.py:193-232 | false and no change for an unknown name; otherwise the key is removed and the other names keep their insertion order, and when it was current the first remaining key in that order becomes current, or none |
| DbManager.DBManager.GetCurrentDb | data_manager/db_manager.py:234-244 | the current handler exactly when there is a non-empty current name |
| DbManager.DBManager.GetDatabaseInfo | data_manager/db_manager.py:277-296 | one entry per database in insertion order, with its path or "N/A", and exactly the current one marked |
| DbManager.DBManager.DisconnectAll | data_manager/db_manager.py:298-311 | no databases and no current one |
| DbManager.LastSep | data_manager/db_manager.py:44 | the index of the last `/` or `\`, -1 when the path has none |
| DbManager.LastDot | data_manager/db_manager.py:44 | the index of the last `.`, -1 when the name has none |
| GitStatus.StatusFilenameRule | utils/git_manager.py:866-889 | the regular expression and its fallbacks reduce to one rule: the name starts after the third character when that character is whitespace, otherwise at it; a three-character line never yields a usable name |
| GitStatus.ChangeTypeCases | utils/git_manager.py:953-964 | "추가됨" exactly for a status starting with `A` or `??`, "삭제됨" exactly for `D`, "이름변경" exactly for `R`, and "수정됨" for `M` and every other status |
| GitStatus.StripCwdPrefix | utils/git_manager.py:946-951 | one leading `<cwd name>/` is removed, and a name without it is kept |
| GitStatus.NormalizeStatusName | utils/git_manager.py:937-951 | the result has no backslash and no trailing quote; the name with backslashes turned into `/` and quotes stripped is either `<cwd name>/` followed by the result, or is the result itself and does not start with that prefix |
| GitStatus.ParseStatusLine | utils/git_manager.py:854-976 | blank lines and lines shorter than three characters give no entry; an entry's status is the first two characters, its change type is decided from that status, and it is a CSV file, a database file and checked by default as its name says |
| GitStatus.ParseStatusLineExact | utils/git_manager.py:854-976 | a line gives an entry exactly when it is not blank, has at least three characters and a name part that is not blank; the entry's name is that part normalised |
| GitStatus.ParseStatusLines | utils/git_manager.py:854-976 | at most one entry per line |
| GitStatus.ParseStatusLinesMembers | utils/git_manager.py:854-976 | the entries are exactly the entries of the lines that parse |
| GitStatus.ParseStatusLinesAppend | utils/git_manager.py:854-976 | lines are parsed one by one, so the entries of two runs of lines are those of the first run followed by those of the second |
| GitStatus.KeepValid | utils/git_manager.py:979-993 | exactly the entries with a name shorter than 200 characters, without `/3` and not blank |
| GitStatus.ChangedFiles | utils/git_manager.py:842-996 | blank output gives no entries, and every entry returned passes the final filter |
| GitStatus.ChangedFilesExact | utils/git_manager.py:842-996 | for output that is not blank, the entries returned are exactly the entries of its lines that pass the final filter |
| GitStatus.KeptEntriesAppend | utils/git_manager.py:854-993 | the kept entries of two runs of lines are those of the first run followed by those of the second, and one line gives its entry exactly when it parses and passes the filter: the result lists the kept entries in line order |
| GitStatus.KeepValidAppend | utils/git_manager.py:979-993 | the filter works entry by entry, so it keeps the input order |
| GitStatus.UntrackedLine | utils/git_manager.py:371-373 | a non-empty untracked name ends up among the deleted files; the other two lists do not change |
| GitStatus.NameStatusLineCases | utils/git_manager.py:323-335 | an empty line or one with no tab changes nothing; a line starting `D<tab>` adds its second field to the new files and one starting `A<tab>` to the deleted ones |
| GitStatus.NameStatusTwoFields | utils/git_manager.py:323-337 | for `<status><tab><name>`: `D` adds the name to the new files, `A` to the deleted files, a status starting with `M` to the modified files, and any other status changes nothing |
| GitStatus.NameStatusRename | utils/git_manager.py:338-344 | `R…<tab><old><tab><new>` adds the old name to the deleted files and the new name to the new files, and nothing else |
| GitStatus.FoldExtends | utils/git_manager.py:323-373 | every stage only appends to the three lists, and the `git clean` and untracked stages leave the modified and new files as they were |
| GitStatus.CleanCollects | utils/git_manager.py:356-359 | every `Would remove <name>` line puts `<name>` among the deleted files |
| GitStatus.UntrackedCollects | utils/git_manager.py:371-373 | every non-empty untracked name is among the deleted files afterwards, no other name is added, and a name is added only when it was not yet listed |
| GitStatus.ForcePullPreviewStages | utils/git_manager.py:323-373 | the modified and new files are exactly those of the diff stage (none when the diff fails); the diff's deleted files stay first; every `Would remove` name and every untracked name is among the deleted files |
| GitStatus.StatusField | utils/git_manager.py:327-332 | a line opening with a one-letter status and a tab splits into that letter and at least one more field |
| GitStatus.UntrackedNoDuplicates | utils/git_manager.py:371-373 | the untracked stage never lists a name twice among the deleted files |
| GitStatus.NormalizedPathParts | utils/git_manager.py:1181-1210 | with its quotes stripped, the path either is `<cwd name>/` followed by the result or is the result itself and does not start with that prefix; no quote is left at the end of the result; a path that gives none lies under the working directory |
| GitStatus.NormalizeQuotedRelative | utils/git_manager.py:1181-1210 | a quoted `<cwd name>/<rel>` normalises to exactly `<rel>` |
| GitStatus.SearchOctalEscape | utils/git_manager.py:1132 | the first position at or after the start where `/3[0-7][0-7]/[0-7]{3}/[0-7]{3}` matches, or none when it matches nowhere |
| GitStatus.IsCorruptedFilename | utils/git_manager.py:1126-1148 | true exactly when the octal pattern occurs somewhere or the name is longer than 500 characters |
| GitDialog.ClassifyLine | ui/git_status_dialog.py:715-744 | every diff line adds the same number of rows to both columns, at most one each |
| GitDialog.ColumnsAligned | ui/git_status_dialog.py:706-746 | the two columns always have the same number of rows |
| GitDialog.ParseDiffContentAligned | ui/git_status_dialog.py:706-746 | the split of a whole diff text gives columns of equal length |
| GitDialog.RowsPaired | ui/git_status_dialog.py:715-744 | rows in the same position pair up: a removal faces an empty row, an empty row faces an addition, headers and context are the same on both sides |
| GitDialog.NoHunkOnlyHeaders | ui/git_status_dialog.py:716-727 | before any `@@` line, only the `diff --git` headers reach the viewer |
| GitDialog.Names | ui/git_status_dialog.py:602 | the file names of the changed files, position by position |
| GitDialog.DefaultSelection | ui/git_status_dialog.py:438-452 | only listed names are pre-selected, and every file with the default check is |
| GitDialog.DefaultSelectionExact | ui/git_status_dialog.py:438-452 | with distinct names a file is pre-selected exactly when its default check is set, and no name twice |
| GitDialog.NewFiles | ui/git_status_dialog.py:1124-1134 | the new files are exactly the after-close entries whose names were not listed before |
| GitDialog.NewFilesAppend | ui/git_status_dialog.py:1124-1134 | the new files are picked entry by entry, so they keep the order of the after-close list |
| GitDialog.AppendAbsent | ui/git_status_dialog.py:1139-1142 | the names are appended after the old selection, which stays a prefix, without creating duplicates |
| GitDialog.SelectName | ui/git_status_dialog.py:486-490 | checking a row selects its file, keeps every earlier selection and keeps the rows mirroring the selection |
| GitDialog.SelectFiles | ui/git_status_dialog.py:1139-1142 | every file to add ends up selected and checked, every earlier selection stays, and the rows still mirror the selection |
| GitDialog.GitStatusDialog.UpdateFileList | ui/git_status_dialog.py:407-466 | the selection is rebuilt from scratch as the default-checked files in list order, each row's check is its default, and the select-all box is refreshed |
| GitDialog.GitStatusDialog.UpdateSelectAllCheckbox | ui/git_status_dialog.py:507-524 | the box shows the tri-state of the selection count against the number of changed files; nothing else changes |
| GitDialog.GitStatusDialog.OnItemChanged | ui/git_status_dialog.py:476-505 | a row outside the list changes nothing; otherwise its check is set, the name is appended if checked and absent or removed if unchecked and present, and the selection stays duplicate-free and mirrored by the rows |
| GitDialog.GitStatusDialog.ToggleAllFilesByClick | ui/git_status_dialog.py:588-640 | when the box was checked or the click checks it, every changed file is selected in list order and every row checked; otherwise nothing is selected and no row checked |
| GitDialog.GitStatusDialog.CheckNewFilesAfterDbClose | ui/git_status_dialog.py:1112-1148 | the new files are recorded, but the rebuilt list leaves exactly the default-checked files selected, each row checked as its default says and the select-all box showing the tri-state of the selection |
| GitDialog.NewFileWithoutDefaultCheckIsDropped | ui/git_status_dialog.py:1139-1148 | a new file without the default check is recorded as new and yet is not selected after the rebuild |
| GitDialog.GitStatusDialog.CheckNewFilesAfterDbCloseKeepingNew | ui/git_status_dialog.py:1138-1148 | the corrected method: every new file and every default-checked file ends up selected |
| Navigator.NavOpCode | navigator/navigator_constants.py:67-87 | the navigator's opcode table never yields `NONE` or `$STR_DEF` |
| Navigator.NavOpCodeIsTable | navigator/navigator_constants.py:67-87 | the navigator reads every opcode exactly as the generator's table does, except `$STR_DEF`, which it does not know |
| Navigator.Icon | navigator/navigator_constants.py:89-112 | every displayed opcode has its own icon, so the fallback icon is never shown for one |
| Navigator.ColumnPositions.constructor | navigator/navigator_core.py:25-30 | all four columns start unset (-1) |
| Navigator.HeaderOf | navigator/navigator_core.py:83-91 | a cell names a header only when it is non-empty and its lower-cased, stripped text is that header's word |
| Navigator.HeaderRows | navigator/navigator_core.py:79 | the header search looks at no more than ten rows and no more than the sheet has |
| Navigator.RowScanKeeps | navigator/navigator_core.py:92-100 | a column that is already set is never overwritten by a later cell |
| Navigator.RowScanFirst | navigator/navigator_core.py:82-100 | scanning a row from unset finds the leftmost cell naming the header, or stays unset exactly when none does |
| Navigator.SheetScanKeeps | navigator/navigator_core.py:79-100 | a set column survives the rest of the header search |
| Navigator.SheetScanFirst | navigator/navigator_core.py:79-100 | the header search finds the first cell naming the header in row-major order, or leaves the column unset exactly when no searched row has one |
| Navigator.DetectByHeaders | navigator/navigator_core.py:70-100 | each of the four columns becomes the first header cell found for it, a column set before the search being kept |
| Navigator.ScanRow | navigator/navigator_core.py:82-100 | one row of the search updates each column as the row scan does |
| Navigator.ScanCell | navigator/navigator_core.py:83-100 | a cell sets only the column of the header it names, and only while that column is unset |
| Navigator.SearchRows | navigator/navigator_core.py:105 | the pattern search and the name score look at no more than fifty rows |
| Navigator.PatternCol | navigator/navigator_core.py:102-111 | the opcode column is the first of columns 0 and 1 having a cell starting with `$` in the searched rows, and -1 exactly when neither has one |
| Navigator.DetectOpcodeByPattern | navigator/navigator_core.py:102-111 | the opcode column becomes the pattern's column when there is one and is kept otherwise |
| Navigator.Without | navigator/navigator_core.py:175 | removing characters leaves none of them and never lengthens the text |
| Navigator.WithoutFrom | navigator/navigator_core.py:175 | every character that remains comes from the original text |
| Navigator.ValidNameShape | navigator/navigator_core.py:163-178 | a valid variable name has two or more characters, never starts with `$`, and, unless it holds Hangul, contains a Latin letter |
| Navigator.NameCounts | navigator/navigator_core.py:138-149 | the valid names never exceed the filled cells, which never exceed the rows counted |
| Navigator.Score | navigator/navigator_core.py:152-161 | the score is a share between 0 and 1, 0 with no names, 1 when five or more filled cells are all names, and at most one half when fewer than five cells are filled |
| Navigator.RatioBounds | navigator/navigator_core.py:155 | a share of names among filled cells lies between 0 and 1 and is 1 when all are names |
| Navigator.NameScore | navigator/navigator_core.py:133-161 | a column's name score lies between 0 and 1 |
| Navigator.CalculateNameColumnScore | navigator/navigator_core.py:133-161 | the method's loop computes the column's name score |
| Navigator.CountNames | navigator/navigator_core.py:138-149 | the loop counts the valid names and the filled cells of the column in the first fifty rows |
| Navigator.CountCell | navigator/navigator_core.py:139-149 | a filled cell adds one to the total, and one to the names when it is a valid variable name |
| Navigator.CountName | navigator/navigator_core.py:148-149 | a valid variable name adds exactly one to the names |
| Navigator.PickFrom | navigator/navigator_core.py:119-127 | the chosen candidate is the previous best or one of the remaining candidates |
| Navigator.PickFromBest | navigator/navigator_core.py:119-127 | the scan picks the earliest candidate with the highest score above 0.3, or none when no score exceeds 0.3 |
| Navigator.EstimatedNameCol | navigator/navigator_core.py:113-131 | the estimated name column is the earliest best-scoring candidate above the threshold, or -1 exactly when no candidate qualifies |
| Navigator.EstimatedIsPicked | navigator/navigator_core.py:119-131 | the estimate is the column of the candidate the scan picks |
| Navigator.EstimateNameColumn | navigator/navigator_core.py:113-131 | the name column becomes the estimate when there is one and is kept otherwise |
| Navigator.BestNameCol | navigator/navigator_core.py:116-127 | the method's loop over the three candidates returns the estimated name column |
| Navigator.Detected | navigator/navigator_core.py:53-68 | the detected opcode column is the first opcode header cell, or the pattern's column when no header names it |
| Navigator.DetectedOpcode | navigator/navigator_core.py:53-68 | the opcode column is either a column whose header cell is the first naming the opcode, or the pattern's column when no searched row names it |
| Navigator.Completed | navigator/navigator_core.py:58-68 | the pattern and the estimate only fill in columns the headers left unset, and never touch the value and type columns |
| Navigator.DetectColumnPositions | navigator/navigator_core.py:53-68 | the method returns fresh positions holding the detected columns |
| Navigator.CompletePositions | navigator/navigator_core.py:58-66 | the positions after the pattern and the estimate are the completed header columns |
| Navigator.SizeInfo | navigator/navigator_core.py:241-249 | a size suffix appears exactly on an `$ARRAY` row whose value cell, stripped, starts with `[` and ends with `]`, and is a space and that stripped text |
| Navigator.ParseRow | navigator/navigator_core.py:185-222 | a row gives an item exactly when its stripped opcode cell is a displayed `$` opcode and its name cell is not blank; the item carries that row, opcode, name column, name and size |
| Navigator.ParsedRows | navigator/navigator_core.py:46-49 | each row of the sheet is parsed with its own index |
| Navigator.Collect | navigator/navigator_core.py:46-49 | no more items are collected than there are rows |
| Navigator.CollectStep | navigator/navigator_core.py:46-49 | a row's item, if any, precedes the items of the later rows |
| Navigator.CollectFromRows | navigator/navigator_core.py:46-49 | every collected item is the parse of its own row |
| Navigator.CollectOrdered | navigator/navigator_core.py:46-49 | the items come in strictly increasing row order |
| Navigator.CollectComplete | navigator/navigator_core.py:46-49 | every row that parses contributes its item |
| Navigator.ParseItems | navigator/navigator_core.py:35-51 | no item comes from a sheet without an opcode column; otherwise the items are the parsed rows collected in order |
| Navigator.CollectItems | navigator/navigator_core.py:46-49 | the method's loop collects the parsed rows' items in order |
| Navigator.ParseRowAt | navigator/navigator_core.py:45-48 | parsing row `r` gives that row's entry |
| FileInfos.TitleOfText | code_generator/file_info.py:28-41 | the four titles are distinct, so a cell holds a title exactly when it is that title's text |
| FileInfos.MarkCell | code_generator/file_info.py:28-39 | a cell moves only the mark of the title it holds, to the place that title announces (one column right, one row down and one column right, three rows down) |
| FileInfos.MarkRowFrom | code_generator/file_info.py:25-41 | after a row, a title's mark is unchanged or points at a cell of that row, left of any `XlsInfoTitle` cell, that holds the title |
| FileInfos.MarkRowsFrom | code_generator/file_info.py:23-41 | after the scan, a title's mark is unchanged or is the target of a cell of the sheet that holds the title |
| FileInfos.MarkRowsSized | code_generator/file_info.py:23-41 | on a sheet within Excel's width every recorded position stays within one column past the last |
| FileInfos.FilePath | code_generator/file_info.py:43-56 | no path without the title; a path read is empty or starts with `/` |
| FileInfos.FilePathAtRead | code_generator/file_info.py:43-56 | with the empty default, the path is the cell less at most one trailing slash, and nothing when the cell is not absolute |
| FileInfos.MissingLines | code_generator/file_info.py:62-87 | a message is logged exactly when a description title is missing |
| FileInfos.HistoryNext | code_generator/file_info.py:95-110 | a column without date and description ends the history; any other appends its entry |
| FileInfos.HistoryStart | code_generator/file_info.py:95-110 | the history is empty exactly when its first column is blank, and otherwise opens with the first date |
| FileInfos.HistStep | code_generator/file_info.py:104-108 | the three appends of one column add that column's entry |
| FileInfos.IncludeText | code_generator/file_info.py:119-132 | an include entry never keeps a double quote |
| FileInfos.DropNewline | code_generator/file_info.py:114-115 | one trailing line break is removed, and a text without one is kept |
| FileInfos.PlainFieldIsCell | code_generator/file_info.py:111-134 | a one-line field other than the history and the includes is the cell text as written |
| FileInfos.Filled | code_generator/file_info.py:92-134 | reading the texts keeps the keys of the description |
| FileInfos.StemSplit | code_generator/file_info.py:144-145 | a name of two characters or more is its stem and its extension of two characters |
| FileInfos.Flag | code_generator/file_info.py:136-152 | a check reports its one cell exactly when it fails |
| FileInfos.RecordedKeeps | code_generator/file_info.py:151-155 | recording a file keeps every known stem, adds the new one and adds nothing when it is already known |
| FileInfos.MatchingPairPasses | code_generator/file_info.py:136-155 | a source `<stem>.c` with its header `<stem>.h` under a new stem passes every check |
| FileInfos.SecondUseReported | code_generator/file_info.py:151-153 | a second description with the same source name is reported as an existing file |
| FileInfos.EntryAt | code_generator/file_info.py:193-214 | the second class of an entry shares the first's pre-code and end-code |
| FileInfos.Req | code_generator/file_info.py:230-259 | an empty required text is reported once, at its cell, and a filled one not at all |
| FileInfos.ClassErrs | code_generator/file_info.py:230-259 | a class's reports lie no further right than six columns past the keyword |
| FileInfos.KeywordErrs | code_generator/file_info.py:222-228 | an empty or already registered keyword is reported at the keyword's own cell |
| FileInfos.ClassErrsEmpty | code_generator/file_info.py:230-259 | a class has no report exactly when its five required texts are all filled |
| FileInfos.ClassLog | code_generator/file_info.py:230-244 | logging a class's reports is logging its five checks in order |
| FileInfos.LogFour | code_generator/file_info.py:136-152 | logging four groups in turn is logging them together, and together they are empty exactly when each is |
| FileInfos.EntryLog | code_generator/file_info.py:222-259 | an entry's log is its keyword's, then its first class's, then its second's, and it is clean exactly when all three are |
| FileInfos.ScanStep | code_generator/file_info.py:192-265 | an entry's reports come before those of the entries two rows below |
| FileInfos.ScanEnd | code_generator/file_info.py:216-218 | the scan stops with no report at the blank entry or below the sheet |
| FileInfos.PrgmScanKeeps | code_generator/file_info.py:224-262 | a registered keyword is never replaced, and every keyword the scan adds is non-empty with two complete classes |
| FileInfos.EntryGrows | code_generator/file_info.py:261-262 | the table grows by an entry's keyword exactly when the entry has no report |
| FileInfos.EntryAccepted | code_generator/file_info.py:220-262 | an accepted entry has a new, non-empty keyword and two complete classes |
| FileInfos.DuplicateKeywordReported | code_generator/file_info.py:225-228 | a keyword already registered is reported and does not replace the registered classes |
| FileInfos.BannerShape | code_generator/file_info.py:294-323 | a banner has twelve lines plus one each for remarks, version and history; the remarks line is there exactly when the remarks are not empty |
| FileInfos.InfoOf | code_generator/file_info.py:271-289 | one file's description gives the seven banner texts |
| FileInfos.JoinStripped | code_generator/file_info.py:121-129 | the loop joins the stripped pieces with CR LF |
| FileInfos.JoinSnoc | code_generator/file_info.py:124-128 | joining one more piece adds the separator and that piece |
| FileInfos.FileInfo.constructor | code_generator/file_info.py:7-21 | empty lists, table and description, all four positions unset, empty path |
| FileInfos.FileInfo.Read | code_generator/file_info.py:162-182 | the positions are the scan's marks; the path, the description with its checks and the keyword table are read from them; the log gets the missing-title lines or the file-name errors, with the name column widened for them and every new source stem recorded, then the pragma errors when the pragma title was found |
| FileInfos.FileInfo.ReadTables | code_generator/file_info.py:171-177 | the description with its checks, then the keyword table when its title was found; the log gets the missing-title lines or the file-name errors, with the name column widened for them and every new source stem recorded, then the pragma errors when the pragma title was found |
| FileInfos.FileInfo.ChkPosition | code_generator/file_info.py:23-41 | the positions are the marks left by scanning every row from row 1 |
| FileInfos.FileInfo.ChkRow | code_generator/file_info.py:26-41 | one row moves the marks as its cells announce, up to the first `XlsInfoTitle` cell |
| FileInfos.FileInfo.MarkAt | code_generator/file_info.py:28-39 | one cell moves the mark of the title it holds |
| FileInfos.FileInfo.ReadSrcHdrInfo | code_generator/file_info.py:58-160 | with both titles: the filled description, its name checks logged and the stem recorded; with one missing: a message each and no other change |
| FileInfos.FileInfo.ReadValues | code_generator/file_info.py:92-134 | every entry of the description gets its text |
| FileInfos.FileInfo.ReadField | code_generator/file_info.py:93-134 | an entry's text as the field's rule reads it |
| FileInfos.FileInfo.ReadRaw | code_generator/file_info.py:93-117 | the history or the cell, less one trailing line break, with CR LF line breaks |
| FileInfos.FileInfo.ReadInclude | code_generator/file_info.py:119-132 | the include entry split at commas, stripped, one per line, without quotes |
| FileInfos.FileInfo.ReadHistory | code_generator/file_info.py:94-110 | the history loop gives the history of the two rows from the given column |
| FileInfos.FileInfo.HistoryColumn | code_generator/file_info.py:98-108 | a blank column stops the loop; any other appends its entry |
| FileInfos.FileInfo.Cell | core/info.py:186-219 | the cell text as `ReadCell` reads it |
| FileInfos.FileInfo.CheckFileNames | code_generator/file_info.py:136-160 | the name checks logged in order, failure exactly when one fails, and the stem recorded |
| FileInfos.FileInfo.Report | code_generator/file_info.py:136-153 | a failed check is logged at its cell, and reported exactly when it fails |
| FileInfos.FileInfo.ReadPrgmInfo | code_generator/file_info.py:184-267 | never fails; with the title, the table and the log are the scan's, and without it nothing changes |
| FileInfos.FileInfo.ScanTable | code_generator/file_info.py:192-265 | the loop leaves the scan's table and logs the scan's reports |
| FileInfos.FileInfo.ScanEntry | code_generator/file_info.py:193-265 | one entry: at the blank entry nothing changes; otherwise its reports are logged and the scan goes on two rows down |
| FileInfos.FileInfo.CheckEntry | code_generator/file_info.py:220-262 | an entry's reports are logged, and it is registered exactly when there are none |
| FileInfos.FileInfo.CheckKeyword | code_generator/file_info.py:222-228 | an empty or registered keyword is logged at its cell |
| FileInfos.FileInfo.CheckClass | code_generator/file_info.py:230-259 | a class's missing required texts are logged, failure exactly when there is one |
| FileInfos.FileInfo.Require | code_generator/file_info.py:230-232 | an empty text is logged at its cell, and reported exactly when it is empty |
| FileInfos.FileInfo.WriteFileInfo | code_generator/file_info.py:294-323 | the banner goes to the source list or the header list, and the other is unchanged |
| FileInfos.FileInfo.Write | code_generator/file_info.py:269-292 | both lists become the banners of their descriptions |
| FileInfos.AtReadCell | code_generator/file_info.py:215-259 | a text taken from a row's texts is the cell as `ReadCell` reads it |
| FileInfos.RowTextCell | code_generator/file_info.py:215-259 | a row's texts are its cells as `ReadCell` reads them, one per cell |
| FloatSuffix.WordLen | code_generator/cal_list.py:1118 | the length of the longest prefix of word characters and points |
| FloatSuffix.SpaceLen | code_generator/cal_list.py:1118 | the length of the longest whitespace prefix |
| FloatSuffix.SeparatorEnd | code_generator/cal_list.py:1118 | a separator is never empty and never runs past the text |
| FloatSuffix.Tokens | code_generator/cal_list.py:1118 | the split has words at even and separators at odd positions, so an odd number of pieces, and the pieces join back into the text |
| FloatSuffix.TokensShape | code_generator/cal_list.py:1118 | the pieces join back into the text and alternate between words of `[\w.]` and separators that are a whitespace run or one other character |
| FloatSuffix.ApplyFloatSuffix | code_generator/cal_list.py:1089-1158 | an empty cell, a cell ending in `f` or `F` and a cell with a comment are left as they are |
| FloatSuffix.SuffixTokenIdempotent | code_generator/cal_list.py:1121-1138 | rewriting a rewritten piece changes nothing |
| FloatSuffix.SuffixTokenChars | code_generator/cal_list.py:1121-1138 | a rewritten word is still a word and extends the original |
| FloatSuffix.RewriteHead | code_generator/cal_list.py:1117-1140 | the rewrite keeps the first character and empties only the empty cell |
| FloatSuffix.TokensOfRewrite | code_generator/cal_list.py:1117-1140 | splitting the rewritten cell gives the rewritten pieces: the rewrite never merges or splits a piece |
| FloatSuffix.TokensOfJoined | code_generator/cal_list.py:1118 | a word, a separator and text that does not continue the separator's run split back into those pieces |
| FloatSuffix.SeparatorKept | code_generator/cal_list.py:1121-1123 | a separator is never rewritten |
| FloatSuffix.RewriteIdempotent | code_generator/cal_list.py:1117-1140 | rewriting a rewritten cell changes nothing more |
| FloatSuffix.ApplyFloatSuffixIdempotent | code_generator/cal_list.py:1089-1158 | applying the suffix twice equals applying it once |
| FloatSuffix.SuffixAllIdempotent | code_generator/cal_list.py:1117-1140 | suffixing every word twice is suffixing it once |
| FloatSuffix.RewriteWord | code_generator/cal_list.py:1117-1140 | a cell that is one word is rewritten as that word suffixed |
| FloatSuffix.RewriteStep | code_generator/cal_list.py:1117-1140 | the rewrite suffixes the first word, keeps the separator after it, and goes on with the rest |
| FloatSuffix.SeparatorMaximal | code_generator/cal_list.py:1118 | a whitespace separator runs up to the next visible character |
| Arrays.ChkArrSize | code_generator/cal_list.py:618-632 | a size without a comma is one row; a size that parses has a non-empty text once brackets are stripped; a text that is no integer gives no size |
| Arrays.ChkArrSizeOfPair | code_generator/cal_list.py:618-632 | the size text `[r,c]` reads back as `r` rows of `c` columns |
| Arrays.ChkArrSizeOfSingle | code_generator/cal_list.py:618-632 | the size text `[n]` reads back as one row of `n` columns |
| Arrays.StripBrackets | code_generator/cal_list.py:622 | stripping brackets from `[s]` gives `s` back when `s` neither starts nor ends with one |
| Arrays.ScanRow | code_generator/cal_list.py:700-707 | the loop finds text in the row's columns exactly when one of them holds some |
| Arrays.ScanCol | code_generator/cal_list.py:710-712 | the loop finds text in the column's rows exactly when one of them holds some |
| Arrays.ChkArrtype | code_generator/cal_list.py:694-714 | the three scans report content exactly when one of the two rows or the column holds text |
| Arrays.ChkArrInfo | code_generator/cal_list.py:572-616 | exactly one of the two size cells bracketed picks Type1 (below) or Type2 (right), neither or both is a size error; a size below one in both directions is an error; Type3 is a single row wider than ten with no content beside it; Type4 is one column wide |
| Arrays.SetArrInfo | code_generator/cal_list.py:634-692 | the table's start, end and read size for each type, with empty tables, no annotation and the row counter at 0 |
| ArrMem.Widen | code_generator/cal_list.py:814-815 | the width list is extended with zeros until it has the slot, and its old slots are kept |
| ArrMem.FitSlot | code_generator/cal_list.py:814-825 | after the update the slot is at least the cell's width, no slot narrows, and every other slot keeps its value or is a new zero |
| ArrMem.FitSlotLoop | code_generator/cal_list.py:814-825 | the extension loop and the update compute the fitted widths |
| ArrMem.AnnotateFrame | code_generator/cal_list.py:783-797 | the annotation bookkeeping keeps the table's corner, type and rows, and widens the table by one column only for a `$` cell |
| ArrMem.AnnotateKeeps | code_generator/cal_list.py:783-797 | a column is annotated at most once, only on the table's first row and only for a `$` cell, and the table widens by exactly the columns added |
| ArrMem.PreparedFrame | code_generator/cal_list.py:771-806 | preparing a cell keeps the corner, type and rows, never narrows a width, and widens the table only for a cell with text |
| ArrMem.PreparedKeeps | code_generator/cal_list.py:771-806 | preparing a cell keeps the annotated columns distinct and adds one only on the first row |
| ArrMem.StoredCellHasNoRule | code_generator/cal_list.py:806 | a stored cell never holds a `$` |
| ArrMem.CellStepFrame | code_generator/cal_list.py:767-830 | one column leaves the corner, type and earlier rows alone and moves the table's end by at most one column, only on a cell with text |
| ArrMem.CellStepDecreases | code_generator/cal_list.py:767-830 | the column loop terminates: the columns left shrink with every step |
| ArrMem.ScanFrom | code_generator/cal_list.py:767-830 | the rest of the row keeps the table's shape, and every stored cell fits its slot's width |
| ArrMem.ScanJoin | code_generator/cal_list.py:767-830 | one column then the rest of the row keep the shape and the widths together |
| ArrMem.ScanFromKeeps | code_generator/cal_list.py:767-830 | the whole row keeps the scan's invariants |
| ArrMem.ReadArrRowKeeps | code_generator/cal_list.py:716-848 | reading a row keeps the geometry, the widths covering every stored cell and distinct annotated columns; columns are annotated only on the first row; no newly stored cell holds a `$` |
| ArrMem.ReadArrCell | code_generator/cal_list.py:769-830 | the loop body computes one column's step |
| ArrMem.ReadArrMem | code_generator/cal_list.py:716-848 | the loop reads the row, with its empty-cell reports, as the row function does |
| ArrMem.LabelWidths | code_generator/cal_list.py:873-881 | a label column opening a run of annotated columns widens by three, every other column keeps its width |
| ArrMem.WidenLabels | code_generator/cal_list.py:873-881 | the loop widens the label columns in place as the function does |
| ArrMem.ReadyArrMemMake | code_generator/cal_list.py:850-881 | the method prepares the table as the function does |
| ArrMem.ReadyArrMakeKeeps | code_generator/cal_list.py:850-881 | preparing keeps the geometry, the rows and the widths covering every stored cell, and never narrows a width |
| ArrMem.ValuePieceAligned | code_generator/cal_list.py:1026-1050 | a value's padding ends on the tab stop after its column's widest cell, so the values of a column line up from row to row |
| ArrMem.WriteArrMem | code_generator/cal_list.py:883-1087 | no line exactly for a size error, a first row without index or a later Type3 row, and for missing cells; an index fault only with fewer than two read columns |
| ArrMem.WriteColumns | code_generator/cal_list.py:932-1053 | the column loop returns early exactly when the row's cells are missing, and otherwise the written columns |
| ArrMem.WriteArrMemRow | code_generator/cal_list.py:883-1087 | the method writes the row as the function does |
| ArrMem.WrittenRowBracketed | code_generator/cal_list.py:1055-1085 | a written row starts with its columns and its closing, and ends with the array's closing brace on the last row and with its trailing comment otherwise |
| ArrMem.CommentRowShape | code_generator/cal_list.py:914-1056 | a comment row is one C comment: it opens with `/*` and a tab, and its columns are followed by `*/` |
| ArrMem.TextOnlyWithinRow | core/info.py:186-216 | a cell that reads as text lies within its row |
| DeclFormat.Advance | code_generator/cal_list.py:2186-2219 | writing a character always moves the column on |
| DeclFormat.ColumnAfter | code_generator/cal_list.py:2186-2219 | writing a non-empty text moves the column on |
| DeclFormat.ColumnAfterAppend | code_generator/cal_list.py:2186-2219 | the column after two texts is the column after the second written from where the first ends |
| DeclFormat.ColumnAfterPlain | code_generator/cal_list.py:2186-2219 | text without tabs advances one column per character |
| DeclFormat.ColumnAfterTabs | code_generator/cal_list.py:2186-2219 | `n` tabs end where `TabColumn` says |
| DeclFormat.TabColumnShift | code_generator/cal_list.py:2186-2219 | tabs written from a tab stop land that much further than from column 0 |
| DeclFormat.ColumnAfterTabbed | code_generator/cal_list.py:2186-2219 | text followed by tabs ends where the tabs from the text's end land |
| DeclFormat.PaddedEnds | code_generator/cal_list.py:1741-1745 | a text padded with `calculatePad` ends on the block's stop, whatever its length |
| DeclFormat.SeparatorEnds | code_generator/cal_list.py:1856-1857 | a separator padded with `calculatePad` ends on the block's stop one column further, whatever the text before it |
| DeclFormat.LJustAfterPrefix | code_generator/cal_list.py:1793 | a prefix followed by text justified to the remaining width is the whole text justified to the width |
| DeclFormat.Comment | code_generator/cal_list.py:1653-1654 | a description becomes a `// ` comment, and no description no comment |
| DeclFormat.TrailingGapTabs | code_generator/cal_list.py:1826-1829 | the gap before a trailing comment is one or two tabs |
| DeclFormat.TrailingShape | code_generator/cal_list.py:1826-1829 | a trailing comment follows the text after its gap |
| DeclFormat.TrailingGap | code_generator/cal_list.py:1826-1829 | after tab-free text the comment starts on a tab stop at least two columns after the text |
| DeclFormat.NameColumnAligned | code_generator/cal_list.py:1792-1793 | whatever the name, the text after it starts on the block's name stop |
| DeclFormat.HeaderDeclAligned | code_generator/cal_list.py:1901-1902 | the comment of every header declaration of a block starts on the same stop |
| DeclFormat.DefineAligned | code_generator/cal_list.py:1749-1756 | every `#define` of a block puts its value on one stop and its comment on another, whatever the name and value |
| DeclFormat.DefineHeadColumn | code_generator/cal_list.py:1750-1751 | `#define`, its tab and the padded name end on the block's value stop |
| DeclFormat.StrMemLine | code_generator/cal_list.py:1774-1804 | a structure member yields a line exactly when it has neither value nor description (as written) |
| DeclFormat.StrMemCommentFails | code_generator/cal_list.py:1779-1781 | a structure member with a description never yields a line (as written) |
| DeclFormat.StrMemCorrectedAligned | code_generator/cal_list.py:1774-1804 | the corrected member line agrees with the one written where that one exists, and every member with a width puts its `: width` on the same stop |
| DeclFormat.StrMemWidthPrefix | code_generator/cal_list.py:1792-1793 | a member with a width writes the padded name then `: ` and the width |
| DeclFormat.StrMemNameColumn | code_generator/cal_list.py:1792-1798 | after the leading tab the name column ends on the block's stop |
| DeclFormat.ColumnAfterShift | code_generator/cal_list.py:2186-2219 | text written from a tab stop ends that much further than from column 0 |
| DeclFormat.TabThenPadded | code_generator/cal_list.py:1848-1849 | a tab and then text padded to a block column end on that stop plus one tab |
| DeclFormat.EnumMemAligned | code_generator/cal_list.py:1848-1849 | every enumerator with a value puts `= ` on the same stop |
| DeclFormat.EnumMemCommentAligned | code_generator/cal_list.py:1848-1857 | every enumerator with a value puts its comment on the same stop, whatever the value's length |
| DeclFormat.EnumValueSepEnds | code_generator/cal_list.py:1856-1857 | the comma after a value is padded to the block's comment stop |
| DeclFormat.BlockStopIsStop | code_generator/cal_list.py:2186-2219 | every block stop is a multiple of the tab size |
| DeclFormat.VariableLines | code_generator/cal_list.py:1992-2016 | an uninitialised variable's header line is `extern`, the key and the type (as written) |
| DeclFormat.VariableHeaderLosesName | code_generator/cal_list.py:1997-2005 | the header line of an uninitialised variable holds neither its name nor a `;` (as written) |
| DeclFormat.VariableCorrectedDeclares | code_generator/cal_list.py:1992-2016 | the corrected header line declares the name, ends in `;` without a comment, never depends on the value, and agrees with the written one for an initialised variable |
| DeclFormat.VariableAligned | code_generator/cal_list.py:2003-2009 | the initialiser of every variable of a block starts on the same stop |
| DeclFormat.TabifyValue | code_generator/cal_list.py:1898-1901 | the four replacements leave no space in an array value |
| DeclFormat.ArrayInlineAligned | code_generator/cal_list.py:1893-1909 | the initialiser of every inline array of a block starts on the same stop, and its value has no spaces left |
| DeclFormat.ArrayInlinePrefix | code_generator/cal_list.py:1893-1897 | an inline array writes the padded name, `= ` and the tabified value |
| DeclFormat.ArrayHeadLines | code_generator/cal_list.py:1910-1928 | any other array opens its brace on the next line, and its header declares `type name;` |
| DeclFormat.CodePieces | code_generator/cal_list.py:2161-2171 | a code text gives at least one line |
| DeclFormat.CodePiecesJoin | code_generator/cal_list.py:2161-2171 | the pieces joined again with LF give the text without CRs, a trailing CR LF kept |
| DeclFormat.CodePiecesLines | code_generator/cal_list.py:2161-2171 | every piece but the last holds no line feed |
| DeclFormat.CodeLinesSingle | code_generator/cal_list.py:2178-2182 | a text without CR LF is one line |
| Prjt.Initial | code_generator/cal_list.py:45-121 | the start state is valid, with no level open and no current name |
| Prjt.Tabs | code_generator/cal_list.py:1659-1661 | `i` tabs, none for `i` at or below zero |
| Prjt.TabsNext | code_generator/cal_list.py:1659-1661 | one more tab is the indentation of the next level |
| Prjt.ResetOneMore | code_generator/cal_list.py:2040-2048 | closing one more level below a closed range extends the range |
| Prjt.FindLevel | code_generator/cal_list.py:2035-2052 | the innermost level at or below `i` defining the name, none exactly when no such level defines it, and an index fault exactly when `i` is past the list |
| Prjt.PrjtStepKeepsValid | code_generator/cal_list.py:2032-2127 | a step fails exactly when a new name needs a sixth level, and otherwise keeps the nesting valid |
| Prjt.FoundKeepsValid | code_generator/cal_list.py:2035-2052 | a name found on an outer level closes the levels inside it and continues there |
| Prjt.ContinueIgnoresCurrent | code_generator/cal_list.py:2071-2112 | the current name matters only to hand back a failed state |
| Prjt.MissingKeepsValid | code_generator/cal_list.py:2054-2070 | a name on no level opens a new one, unless five are open |
| Prjt.ContinueKeepsValid | code_generator/cal_list.py:2071-2112 | `DEFAULT`, `END` or another value of the current name always succeeds and keeps the nesting valid |
| Prjt.OverflowSticks | code_generator/cal_list.py:2032-2127 | once a sixth level was opened every later row fails without changing anything |
| Prjt.SixthLevelOverflows | code_generator/cal_list.py:2067-2068 | opening a sixth level fails with the depth already raised to five |
| Prjt.OpenThenEnd | code_generator/cal_list.py:2054-2099 | opening a name then ending it writes `#if`, then `#else`, the `#error` line and `#endif`, and returns to the outer level |
| Prjt.OpenFresh | code_generator/cal_list.py:2054-2070 | a new name without a comment opens the next level with its `#if` |
| Prjt.EndFresh | code_generator/cal_list.py:2083-2099 | `END` after a single value closes the level with `#else`, `#error` and `#endif` |
| Prjt.OpenAt | code_generator/cal_list.py:2054-2070 | a new name below the fifth level opens the next slot with its one value |
| Prjt.EndAt | code_generator/cal_list.py:2083-2099 | `END` on a level with a value empties it and goes one level out |
| Prjt.DefaultAt | code_generator/cal_list.py:2071-2082 | `DEFAULT` is appended to the level and writes `#else` |
| Prjt.ElifAt | code_generator/cal_list.py:2100-2112 | any other value is appended to the level and writes `#elif` |
| Prjt.OpenDefaultEnd | code_generator/cal_list.py:2054-2099 | `#if`, `DEFAULT` and `END` on one name give `#if`, `#else` and a plain `#endif` |
| Prjt.ElifStaysOnLevel | code_generator/cal_list.py:2100-2112 | another value of the current name adds an `#elif` on the same level |
| Prjt.ReselectOuter | code_generator/cal_list.py:2035-2052 | a name defined on an outer level closes every level inside it, each with its own `#endif`, then adds an `#elif` on that level |
| Prjt.FindLevelFindsInnermost | code_generator/cal_list.py:2036-2037 | the search finds the innermost level defining the name |
| Prjt.CloseTextEndifs | code_generator/cal_list.py:2039-2048 | closing levels writes one `#endif` line for each, indented by its own depth |
| Prjt.ClosableAt | code_generator/cal_list.py:1658-1672 | a level inside a closable range has a slot with a value |
| Prjt.TitleFaultLevel | code_generator/cal_list.py:1658-1672 | the innermost level a `$TITLE` row cannot close, or -1 when all can be closed |
| Prjt.TitleClosesValid | code_generator/cal_list.py:1656-1697 | from a valid state a `$TITLE` row always closes every open level |
| Prjt.ClosableNoFault | code_generator/cal_list.py:1658-1672 | when every level can be closed the title closes without fault |
| Prjt.TitleFaultAt | code_generator/cal_list.py:1658-1672 | the first level that cannot be closed is the one named |
| Prjt.TitleLinesEndifs | code_generator/cal_list.py:1658-1672 | every level a title closes gets its own `#endif`, indented by its depth |
| Pad.TabColumn | code_generator/cal_list.py:2186-2219 | no tabs keep the column; tabs end on a tab stop past the column, at most one tab size per tab |
| Pad.TabColumnFromStop | code_generator/cal_list.py:2186-2219 | tabs from a tab stop land one tab size further each |
| Pad.TabColumnAt | code_generator/cal_list.py:2186-2219 | tabs from any column land on the stop after the column's own, then one tab size further each |
| Pad.PadAlignsText | code_generator/cal_list.py:2186-2219 | the pad after a text at most the block's width is at least one tab and ends on the block's stop, whatever the text's length: this is what lines a block up |
| Pad.PadAlignsSeparator | code_generator/cal_list.py:2186-2219 | a separator padded after a text ends on the block's stop one column further, whatever the text's length |
| Pad.PadCache.constructor | code_generator/cal_list.py:2190-2192 | the cache starts empty |
| Pad.PadCache.Calculate | code_generator/cal_list.py:2186-2219 | the memoised answer is always the direct computation, and the cache records it |
| CalRead.CacheLookup | code_generator/cal_list.py:123-161 | a hit answers from the cache and leaves it as it is; a miss answers what the sheet holds; the cache never grows past 100000 entries |
| CalRead.CacheLookupAgrees | code_generator/cal_list.py:123-161 | a cache that agrees with the sheet answers as the sheet does, and still agrees afterwards |
| CalRead.ReadCellIsStrippedRaw | code_generator/cal_list.py:440-444 | the value of a normal read is the raw prefetched value stripped |
| CalRead.StripTrailingBlank | code_generator/cal_list.py:436-447 | an opcode cell typed with a trailing blank strips to the opcode |
| CalRead.PrefetchAsWrittenMisreadsOpCode | code_generator/cal_list.py:436-447 | a prefetched `"$DEFINE "` cell leaves a cache that disagrees with the sheet, so the opcode check sees no opcode where an unprefetched read sees `$DEFINE` |
| CalRead.PrefetchCellKeeps | code_generator/cal_list.py:436-447 | prefetching one cell keeps the cache agreeing with the sheet and never drops an entry |
| CalRead.PrefetchRowKeeps | code_generator/cal_list.py:435-447 | prefetching a row's columns keeps the cache agreeing with the sheet |
| CalRead.PrefetchRowsKeeps | code_generator/cal_list.py:434-447 | prefetching a batch keeps the cache agreeing with the sheet, so every later read returns what a direct read would |
| CalRead.PrefetchedTrans | code_generator/cal_list.py:434-447 | two prefetch steps that each keep the agreement keep it together |
| CalRead.OpCodeFaultMode | code_generator/cal_list.py:497-516 | the row's mode is NONE exactly when its opcode cell is empty or reported as unknown |
| CalRead.OpCodesLookup | code_generator/cal_list.py:507-508 | the opcodes the reader knows are exactly those of the opcode table |
| CalRead.HeadingOpsMode | code_generator/cal_list.py:1249-1250 | an opcode counts as a heading exactly when its mode is a title, subtitle, description or project row |
| CalRead.HeadingRun | code_generator/cal_list.py:1244-1253 | the count of heading rows at the end of a title's rows: those rows are all headings and the row before them is not |
| CalRead.HeadingRunUnique | code_generator/cal_list.py:1244-1253 | any count with those two properties is the heading run |
| CalRead.CloseSection | code_generator/cal_list.py:1243-1257 | closing the open section changes only the stored rows and clears the open keyword |
| CalRead.InsertAt | code_generator/cal_list.py:1255-1256 | `list.insert(k, x)` puts `x` at `k` and shifts the rest by one |
| CalRead.CloseSectionInserts | code_generator/cal_list.py:1243-1257 | the `$PRGM_END` row goes in just before the title's trailing headings, and the rows around it keep their order |
| CalRead.InsertBeforeRun | code_generator/cal_list.py:1244-1256 | a row inserted before the heading run is followed only by headings and preceded by a non-heading row |
| CalRead.CloseSectionEndsRun | code_generator/cal_list.py:1243-1257 | only headings follow the `$PRGM_END` row and the row before it is no heading |
| CalRead.PragmaStep | code_generator/cal_list.py:1236-1261 | a pragma step changes only the stored rows and the open keyword, and fails only where the source raises KeyError |
| CalRead.PragmaStepSections | code_generator/cal_list.py:1236-1261 | the step either changes nothing, or closes the open section, or opens a section for a registered keyword with a `$PRGM_SET` row appended after any close |
| CalRead.PragmaStepRegistered | code_generator/cal_list.py:1236-1261 | the open keyword is always empty or a registered pragma |
| CalRead.Align | code_generator/cal_list.py:1535-1556 | the alignment bookkeeping changes only the block widths and the finished blocks |
| CalRead.StoreRow | code_generator/cal_list.py:1521-1533 | the row is appended to the current title's rows, an empty title becomes `TITLE+DEFAULT`, a new title is added to the order, and every other title keeps its rows |
| CalRead.SaveTitle | code_generator/cal_list.py:1515-1517 | a title row changes only the current title |
| CalRead.SavePragma | code_generator/cal_list.py:1519-1522 | the pragma step of a variable, array or title row changes only the rows and the open keyword |
| CalRead.SaveStepAfterPragma | code_generator/cal_list.py:1495-1556 | after the pragma step the row is stored, and an array row without a declared array fails |
| CalRead.SaveAppendsLast | code_generator/cal_list.py:1495-1533 | a saved row is the last row of a non-empty current title |
| CalRead.StoreRowKeepsOrder | code_generator/cal_list.py:1527-1531 | storing a row keeps the title order listing each stored title exactly once |
| CalRead.SaveKeepsOrder | code_generator/cal_list.py:1495-1556 | every row keeps the title order listing each stored title exactly once |
| CalRead.SaveClosesBlock | code_generator/cal_list.py:1548-1556 | a title, subtitle, description, string end, enum end, project or unknown row closes the block: its widths are recorded and reset |
| CalRead.SaveCoversRow | code_generator/cal_list.py:1535-1547 | within a block the widths never shrink, and a measured row is covered by them |
| CalRead.StoreRowKeepsOps | code_generator/cal_list.py:1533 | storing a row with a known opcode keeps every stored opcode known |
| CalRead.InsertKeepsOps | code_generator/cal_list.py:1255-1256 | inserting a known row keeps every row's opcode known |
| CalRead.CloseKeepsOps | code_generator/cal_list.py:1243-1257 | closing a section keeps every stored opcode known |
| CalRead.PragmaKeepsOps | code_generator/cal_list.py:1236-1261 | a pragma step keeps every stored opcode known |
| CalRead.SaveKeepsOps | code_generator/cal_list.py:1495-1556 | saving a row keeps every stored opcode known |
| CalRead.SaveKeepsKnownOps | code_generator/cal_list.py:1247-1248 | every stored opcode stays one of the table, so the lookup in the pragma step never fails on it |
| CalWrite.ModeOf | code_generator/cal_list.py:1645-1648 | the row's mode is NONE exactly for an opcode missing from the opcode table |
| CalWrite.WriteCode | code_generator/cal_list.py:2141-2184 | the code tables only grow, nothing but the tables, the title and the indentation changes, and only a `$PRJT_DEF` row moves the indentation |
| CalWrite.WriteCodeStages | code_generator/cal_list.py:2141-2184 | `writeCode` is the title fix-up, the indentation of the row, the appended lines, then the extra tab of an open level |
| CalWrite.ExtendsTrans | code_generator/cal_list.py:2141-2184 | growing the tables twice grows them |
| CalWrite.WriteCodeAppends | code_generator/cal_list.py:2159-2182 | the code is split into lines, each prefixed with the indentation, and appended to the chosen side only; an empty code adds nothing except for a description row |
| CalWrite.WriteCodeIndents | code_generator/cal_list.py:2154-2184 | after a `$PRJT_DEF` row the indentation is one tab per enclosing level, one more while a level is open under the current name |
| CalWrite.CloseLevels | code_generator/cal_list.py:1657-1681 | closing the open levels touches only the nesting, writes no code of its own, and always succeeds from a valid nesting, leaving it valid with no level open |
| CalWrite.TitleStep | code_generator/cal_list.py:1656-1697 | a title row from a valid nesting closes every level, clears the indentation, and makes the group named after its mode and keyword current with its files |
| CalWrite.ArrayStep | code_generator/cal_list.py:1875-1928 | an array row changes only the array table, the current array and the array counter |
| CalWrite.ArrMemStep | code_generator/cal_list.py:1930-1933 | an `$ARR_MEM` row changes only the array table |
| CalWrite.ArrMemStepLine | code_generator/cal_list.py:1930-1933 | on an array written row by row the row's line goes to the source and the row counter moves on, and an index fault skips the row |
| CalWrite.PrjtDefStep | code_generator/cal_list.py:2032-2121 | a `$PRJT_DEF` row changes only the nesting, writes a non-empty text when it writes, and keeps a valid nesting valid |
| CalWrite.NamedKeepsValid | code_generator/cal_list.py:2032-2121 | a row with a name that the nesting machine accepts keeps the nesting valid |
| CalWrite.EmitEndsLine | code_generator/cal_list.py:2032-2121 | every text of the nesting machine ends its line |
| CalWrite.ModeStep | code_generator/cal_list.py:1656-2121 | every mode only grows the code tables, leaves the block counter alone, touches the nesting only for title and project rows, and keeps a valid nesting valid |
| CalWrite.Finish | code_generator/cal_list.py:2123-2130 | the texts only grow the tables, keep the nesting and the group's files, and a block-ending row moves the block counter by one |
| CalWrite.FinishSends | code_generator/cal_list.py:2123-2130 | finishing is sending the texts, then counting a block-ending row |
| CalWrite.Send | code_generator/cal_list.py:2123-2126 | the texts go to the files of the current group and change nothing else but the tables and indentation |
| CalWrite.Conclude | code_generator/cal_list.py:400-406 | a row written moves the block counter as its mode says; a row that raised keeps the state it left, and only a row that produced texts counts as written |
| CalWrite.WriteStep | code_generator/cal_list.py:1560-2139 | `writeCalList` only grows the code tables, moves the block counter exactly for a written block-ending row, and keeps a valid nesting valid |
| CalWrite.RowEffect | code_generator/cal_list.py:1576-2121 | the effect of the row's mode, given its value, comment, widths and blank-line flags, only grows the tables |
| CalWrite.TitleRowCloses | code_generator/cal_list.py:1656-1697 | a title row from a valid nesting is written, closes every level and starts its own group with its files |
| CalWrite.PrjtRowIndents | code_generator/cal_list.py:2032-2126 | a `$PRJT_DEF` row the nesting accepts appends its text behind a blank line, indented by the new depth, and indents the next rows one level deeper while a level is open |
| CalWrite.ModeStepPrjt | code_generator/cal_list.py:2032-2121 | the step of a `$PRJT_DEF` row is the nesting step |
| CalWrite.WriteStepUnfold | code_generator/cal_list.py:1560-2139 | `writeCalList` is the title fix-up, the mode's effect with the widths of the current block, then the texts written out |
| CalWrite.ConcludeTexts | code_generator/cal_list.py:2123-2130 | a row that produced texts is finished and counts as written |
| CalWrite.FinishPrjt | code_generator/cal_list.py:2123-2126 | a `$PRJT_DEF` text goes to the source indented by the depth, with the extra tab of an open level after it |
| CalWrite.FlattenCons | code_generator/cal_list.py:380-383 | the stored rows are written title by title in the order the titles were first stored |
| CalWrite.TitlesFrom | code_generator/cal_list.py:380-406 | writing the titles from one on writes its rows, then the rest unless a row raised KeyError |
| CalWrite.WriteAllCons | code_generator/cal_list.py:383-406 | the loop writes the first row, then the rest unless it raised KeyError |
| CalWrite.WriteAllFrom | code_generator/cal_list.py:383-406 | the rows from any index on are that row, then the loop resumed |
| CalWrite.ResumeAfter | code_generator/cal_list.py:383-406 | once a row has left its state, the rest is the loop resumed from the next row |
| CalWrite.WriteAllAppend | code_generator/cal_list.py:380-406 | writing two runs of rows one after the other is writing them joined |
| CalWrite.WriteAllExtends | code_generator/cal_list.py:380-406 | the write loop only ever appends to the code tables |
| CalWrite.Boundaries | code_generator/cal_list.py:2129-2130 | the number of block-ending rows is at most the number of rows |
| CalWrite.WriteAllAlign | code_generator/cal_list.py:2129-2130 | when every row returns, each reports that it was written and the block counter has moved on once per block-ending row |
| MakeCodes.ReplaceChar | code_generator/make_code.py:818 | `str.replace` of one character by one character is that character-by-character map |
| MakeCodes.MapCharAt | code_generator/make_code.py:818 | the map keeps the prefix before the first match, rewrites the match and maps the rest |
| MakeCodes.HdrUpperName | code_generator/make_code.py:816-822 | the guard is the header name upper-cased with `.` turned into `_`, between two `_`, one character for each character of the name |
| MakeCodes.GuardChars | code_generator/make_code.py:816-822 | the upper-casing and replacing give each guard character from the name's character at that place |
| MakeCodes.GuardIsIdentifier | code_generator/make_code.py:816-822 | a header named with letters, digits, `_` and `.` gets a guard that is a C identifier with no `.` and no lower-case letter |
| MakeCodes.TitleLinesShape | code_generator/make_code.py:593-621 | a title ending in the end-of-project marker adds nothing; otherwise three banner lines with the title's shown part, behind a blank line exactly when the list does not already end in one |
| MakeCodes.ShownTitleSecondField | code_generator/make_code.py:598-600 | a title `a+b` shows `b` |
| MakeCodes.CharContained | code_generator/make_code.py:598 | a character of a string is found in it as a one-character text |
| MakeCodes.SplitContains | code_generator/make_code.py:599 | a string containing the separator splits into at least two pieces, so the second piece exists |
| MakeCodes.Names | code_generator/make_code.py:108-137 | the project list gets every sheet's project name, in order |
| MakeCodes.NamesSnoc | code_generator/make_code.py:136-137 | one more sheet appends its name at the end |
| MakeCodes.FaultLines | code_generator/make_code.py:122-132 | one logged line per recorded error |
| MakeCodes.FaultWidth | code_generator/make_code.py:122-132 | the logged name width never shrinks |
| MakeCodes.FaultSnoc | code_generator/make_code.py:122-132 | one more recorded error adds one line in the cell's own format and widens the name width as `WriteErrCell` does |
| MakeCodes.DefFault | code_generator/make_code.py:122-125 | at most one error for a sheet's definition: empty in a multi-sheet run, else differing from the first sheet's |
| MakeCodes.NameFault | code_generator/make_code.py:127-130 | at most one error for a sheet's project name: empty in a multi-sheet run, else already listed |
| MakeCodes.Faults | code_generator/make_code.py:107-137 | the errors of the sheets so far are all at addressable cells |
| MakeCodes.NoOrderFaultPlaces | code_generator/make_code.py:139-143 | without an order error, a list of distinct names has `COMMON` only first and `DEFAULT` only last |
| MakeCodes.RepeatedNameDoesNotFail | code_generator/make_code.py:127-143 | a repeated project name is recorded but does not make the check fail; only the order of `COMMON` and `DEFAULT` does |
| MakeCodes.ErrShown | code_generator/make_code.py:445-451 | one banner line per shown error, each the error formatted after the indent |
| MakeCodes.ErrSectionCapped | code_generator/make_code.py:438-455 | the error section is the no-error line when there are none, else the count, at most five errors in order, and the overflow line when there are more than five |
| MakeCodes.ConvInfoFrame | code_generator/make_code.py:413-461 | the banner is one comment from `/*` to `*/` of at most fourteen lines, its error section after the five opening lines |
| MakeCodes.CellErrorShownWhole | code_generator/make_code.py:446-448 | a cell error whose sheet and text hold no `:` is shown whole: the padded cell name, then `: ` and the text |
| MakeCodes.CellNameNoColon | code_generator/make_code.py:446-448 | a cell name built from a sheet without `:` holds no `:` |
| MakeCodes.LettersNoColon | code_generator/make_code.py:446-448 | column letters hold no `:` |
| MakeCodes.DigitsNoColon | code_generator/make_code.py:446-448 | a row number holds no `:` |
| MakeCodes.FormatErrTwoFields | code_generator/make_code.py:446-448 | a message with one `:` shows its name padded to the width and the text after it |
| MakeCodes.FormatErrKeepsTwoFields | code_generator/make_code.py:446-448 | a message with two `:` loses what follows the second one |
| MakeCodes.QuoteInjective | code_generator/make_code.py:562-580 | two `#include` lines are equal only for equal file names |
| MakeCodes.NonBlank | code_generator/make_code.py:572 | the kept entries are entries of the list that are not blank |
| MakeCodes.SkipOwn | code_generator/make_code.py:573-580 | no include line names the file's own header, and there are no more lines than entries |
| MakeCodes.Assoc4 | code_generator/make_code.py:544-590 | lines added one after another are the lines of their concatenation |
| MakeCodes.OwnHeaderOnce | code_generator/make_code.py:556-580 | the source includes its own header once, right after the title, and never again from the extra include list |
| MakeCodes.OnceAfter | code_generator/make_code.py:556-580 | a line placed after a prefix and absent from the rest occurs there only |
| MakeCodes.IncludeGuardOpens | code_generator/make_code.py:547-552 | the header starts with `#ifndef G` and `#define G`, whatever the list held before |
| MakeCodes.IncludeGuardCloses | code_generator/make_code.py:790-814 | the header ends with `#endif` of the same guard, then the closing banner of the source |
| MakeCodes.Body | code_generator/make_code.py:740-748 | each code line right-stripped, behind the indent |
| MakeCodes.SheetLinesOf | code_generator/make_code.py:675-748 | a sheet's lines in one file are its opening lines when it opens a block, then its code behind the indent |
| MakeCodes.BlocksSnoc | code_generator/make_code.py:675-748 | the buffer of one more sheet is the buffer so far followed by that sheet's lines |
| MakeCodes.AnyNonCommonAt | code_generator/make_code.py:647-660 | a non-`COMMON` sheet with code for the title makes the scan report non-common code |
| MakeCodes.StrippedNoBreak | code_generator/make_code.py:725-733 | a stripped line never starts with a line break, so the blank line after the directive is always written |
| MakeCodes.OpeningExactly | code_generator/make_code.py:708-735 | a sheet opens a block exactly when its opening is not empty, and the opening is the directive between two blank lines |
| MakeCodes.ClosingShape | code_generator/make_code.py:750-778 | a closed buffer ends with `#endif` and a blank line, after an `#else` raising `#error` exactly when no project is `DEFAULT` |
| MakeCodes.DefLineStarts | code_generator/make_code.py:718-724 | the directive of a project other than `DEFAULT` starts with its keyword, the definition and ` == ` |
| MakeCodes.OpenersFixed | code_generator/make_code.py:708-716 | the corrected directives are empty exactly when no sheet opened a block |
| MakeCodes.ChainSnoc | code_generator/make_code.py:708-716 | an `#if` starts an empty chain and an `#elif` extends a started one |
| MakeCodes.ChainStarted | code_generator/make_code.py:708-716 | a started chain of `#if` and `#elif` lines is well nested |
| MakeCodes.ChainClose | code_generator/make_code.py:708-716 | a started chain followed by `#elif` or by a last `#else` is well nested |
| MakeCodes.FixedStep | code_generator/make_code.py:708-735 | one more sheet adds its corrected directive exactly when it opens a block |
| MakeCodes.NotElseBeforeLast | code_generator/make_code.py:139-143 | with the names in order, no project before the last is `DEFAULT` |
| MakeCodes.FixedChainBefore | code_generator/make_code.py:708-716 | before the last sheet, the corrected directives are one `#if` then `#elif` lines |
| MakeCodes.FixedChainOpens | code_generator/make_code.py:708-716 | a sheet before the last that opens a block extends the chain by one line |
| MakeCodes.FixedKeyword | code_generator/make_code.py:708-716 | the corrected keyword is `#if (` when no earlier sheet opened a block in this file, `#elif (` otherwise |
| MakeCodes.FixedNesting | code_generator/make_code.py:708-716 | with the names in order, the corrected directives of a title are one `#if`, then `#elif` lines, then at most one `#else`, which is last |
| MakeCodes.LastOpens | code_generator/make_code.py:708-716 | when the last sheet opens a block its directive ends the chain |
| MakeCodes.LastSilent | code_generator/make_code.py:708-716 | when the last sheet opens no block an earlier one has started the chain |
| MakeCodes.OpensSeen | code_generator/make_code.py:708-735 | a sheet before the bound that opens a block is seen by the scan |
| MakeCodes.CoveredOpenersAgree | code_generator/make_code.py:711-716 | when the first sheet, or the one after `COMMON`, opens a block, the directives as written are the corrected ones |
| MakeCodes.CoveredNesting | code_generator/make_code.py:708-716 | in that case the directives as written are well nested too |
| MakeCodes.ElifExampleOpens | code_generator/make_code.py:708-735 | in the example run the first sheet has no code for the title and the second has |
| MakeCodes.ElifWithoutIf | code_generator/make_code.py:711-716 | in that run the only directive as written is an `#elif` that no `#if` precedes |
| MakeCodes.ElifExampleFixed | code_generator/make_code.py:711-716 | the corrected directive starts that block with `#if` |
| MakeCodes.MakeCode.constructor | code_generator/make_code.py:45-60 | the generator starts with empty outputs, no projects and no definition, and keeps the file information it is given |
| MakeCodes.MakeCode.AddItems | code_generator/make_code.py:621 | `addItem` for each line appends the lines to one output and leaves the other as it was |
| MakeCodes.MakeCode.ChkPrjtInfos | code_generator/make_code.py:104-145 | the project list gets every sheet's name, the definition is the first sheet's, the result is the order error, and every recorded error is logged, the order error at the first sheet |
| MakeCodes.MakeCode.CheckSheets | code_generator/make_code.py:107-137 | the loop over the sheets appends every name and logs exactly the sheets' errors |
| MakeCodes.MakeCode.CheckStep | code_generator/make_code.py:107-137 | one round checks a sheet and appends its name |
| MakeCodes.MakeCode.CheckSheet | code_generator/make_code.py:108-132 | a sheet's definition and name checks add their errors in that order, and the first sheet's definition is kept |
| MakeCodes.MakeCode.CheckDef | code_generator/make_code.py:122-125 | the definition check logs exactly the sheet's definition error |
| MakeCodes.MakeCode.CheckName | code_generator/make_code.py:127-130 | the name check logs exactly the sheet's name error |
| MakeCodes.MakeCode.Record | code_generator/make_code.py:122-132 | recording one error adds it to the log |
| MakeCodes.MakeCode.MakeCodeTitle | code_generator/make_code.py:593-621 | the title's banner lines are appended to the chosen output, the other is unchanged |
| MakeCodes.MakeCode.MakeConvInfoCode | code_generator/make_code.py:413-465 | the same banner, with the errors logged so far, is appended to both outputs |
| MakeCodes.MakeCode.ConvHeadLines | code_generator/make_code.py:413-437 | the opening lines of the banner |
| MakeCodes.MakeCode.ErrSection | code_generator/make_code.py:440-456 | the error section built one message at a time is the capped section |
| MakeCodes.MakeCode.MakeIncludeCode | code_generator/make_code.py:544-590 | the source gets its title, own header and extra includes; the header gets its guard, title and joined includes; the other output is unchanged |
| MakeCodes.MakeCode.SrcIncludeCode | code_generator/make_code.py:554-580 | the source branch appends the title, the own header and the extra includes |
| MakeCodes.MakeCode.SrcIncludeParts | code_generator/make_code.py:556-580 | the own include names the target's header when a target is given, else the header file |
| MakeCodes.MakeCode.IncludeLines | code_generator/make_code.py:571-580 | one `#include` for each entry other than the own header, in order |
| MakeCodes.MakeCode.HdrIncludeCode | code_generator/make_code.py:547-590 | the header branch appends the guard, the title and the joined extra includes |
| MakeCodes.MakeCode.MakeEndCode | code_generator/make_code.py:790-814 | the closing banner in both outputs, and in the header first the `#endif` of its guard |
| MakeCodes.MakeCode.MakeCalListCode | code_generator/make_code.py:623-786 | for each title in order, its banners and code blocks go to the outputs its file choice names |
| MakeCodes.MakeCode.MakeTitleCode | code_generator/make_code.py:667-786 | one title: the scan, the banners, the per-sheet buffers and their closing lines |
| MakeCodes.MakeCode.Banners | code_generator/make_code.py:667-671 | the title's banner goes to the header first, then the source, as the file choice says |
| MakeCodes.MakeCode.CloseBuffer | code_generator/make_code.py:750-778 | a buffer that opened blocks gets its blank line and closing lines |
| MakeCodes.MakeCode.ScanNonCommon | code_generator/make_code.py:647-660 | the first pass reports whether a non-`COMMON` sheet has code for the title in each file |
| MakeCodes.MakeCode.SheetBuffers | code_generator/make_code.py:677-748 | the second pass builds both buffers sheet by sheet |
| MakeCodes.MakeCode.SheetCode | code_generator/make_code.py:677-748 | one sheet adds its opening lines and code to each buffer |
| MakeCodes.MakeCode.Decide | code_generator/make_code.py:679-705 | a sheet's project name, description, code lists and whether it needs a directive |
| MakeCodes.MakeCode.OpenerOf | code_generator/make_code.py:708-724 | the directive opening a sheet's block |
| MakeCodes.MakeCode.FileLines | code_generator/make_code.py:725-748 | one buffer's lines for one sheet: its opening lines when it opens, then its code |
| MakeCodes.MakeCode.AppendBody | code_generator/make_code.py:740-748 | each code line right-stripped behind the indent, appended in order |
| CalLists.CalList.constructor | code_generator/cal_list.py:45-121 | a sheet's generator starts with empty caches, tables and block lists, no open level, the default widths and mode NONE |
| CalLists.CalList.CachedReadCell | code_generator/cal_list.py:123-161 | the value and the new cache are those of the cache lookup |
| CalLists.CalList.PrefetchBatch | code_generator/cal_list.py:427-447 | the batch prefetch leaves the cache the corrected prefetch gives, which agrees with the sheet |
| CalLists.CalList.PrefetchRowOf | code_generator/cal_list.py:435-447 | one row's columns prefetched |
| CalLists.CalList.ChkOpCode | code_generator/cal_list.py:497-516 | the opcode is read through the cache, the mode set from the table, and exactly a non-empty unknown opcode adds an error line, widening the name column to that cell's reference |
| CalLists.CalList.TrailingHeadings | code_generator/cal_list.py:1244-1253 | the loop counts exactly the heading run at the end of the title's rows |
| CalLists.CalList.SetPragmaSection | code_generator/cal_list.py:1236-1261 | the pragma step as specified, failing without change where the source raises KeyError |
| CalLists.CalList.CloseOpenSection | code_generator/cal_list.py:1243-1257 | the open section closed as specified |
| CalLists.CalList.SaveTempList | code_generator/cal_list.py:1495-1556 | `saveTempList` leaves the saved state of the specification, failing where the source raises KeyError |
| CalLists.CalList.StoreAndAlign | code_generator/cal_list.py:1527-1556 | the row stored, then the block widths; an array row whose array has no entry fails after storing |
| CalLists.CalList.StoreItem | code_generator/cal_list.py:1521-1533 | the row stored under the current title as specified |
| CalLists.CalList.AlignItem | code_generator/cal_list.py:1535-1556 | the alignment bookkeeping as specified |
| CalLists.CalList.EnsureTitle | code_generator/cal_list.py:1565-1574 | the title fix-up as specified |
| CalLists.CalList.AppendCode | code_generator/cal_list.py:2159-2182 | the code's lines, each behind the indentation, appended to the list |
| CalLists.CalList.AppendIndented | code_generator/cal_list.py:2172-2176 | each piece behind the indentation, appended in order |
| CalLists.CalList.LevelTabs | code_generator/cal_list.py:2154-2156 | one tab per enclosing level |
| CalLists.CalList.WriteCode | code_generator/cal_list.py:2141-2184 | `writeCode` leaves the state the specification gives |
| CalLists.CalList.WriteLines | code_generator/cal_list.py:2141-2182 | the title fix-up, the indentation, then the appended lines |
| CalLists.CalList.AppendLines | code_generator/cal_list.py:2159-2182 | the lines go to the end of the chosen side's list when there is something to write |
| CalLists.CalList.CloseLevelsForTitle | code_generator/cal_list.py:1658-1672 | the loop over the open levels, innermost first, closes and resets each until one cannot be closed |
| CalLists.CalList.CloseTitleLevels | code_generator/cal_list.py:1657-1681 | the open levels closed and their lines written, as specified |
| CalLists.CalList.TitleRow | code_generator/cal_list.py:1656-1697 | a title row as specified |
| CalLists.CalList.StartGroup | code_generator/cal_list.py:1683-1697 | the group's file choice, no open level, no indentation and its own title |
| CalLists.CalList.ArrayRow | code_generator/cal_list.py:1875-1928 | an array row as specified |
| CalLists.CalList.SelectArray | code_generator/cal_list.py:1876-1880 | the array becomes current, the counter moves on, and its entry is reset and made ready |
| CalLists.CalList.OpenArray | code_generator/cal_list.py:1882-1928 | the texts of an array row and the entry made ready |
| CalLists.CalList.ArrMemRow | code_generator/cal_list.py:1930-1933 | an `$ARR_MEM` row as specified |
| CalLists.CalList.ArrMemLine | code_generator/cal_list.py:1931-1933 | the array's next line written and counted |
| CalLists.CalList.CountArrRow | code_generator/cal_list.py:1933 | the array's row counter moves on by one |
| CalLists.CalList.FindPrjtLevel | code_generator/cal_list.py:2035-2052 | the search loop finds what the specification's search finds |
| CalLists.CalList.CloseInnerLevels | code_generator/cal_list.py:2039-2048 | the levels inside the found one closed, innermost first, each reset to the row's name, and their `#endif` lines |
| CalLists.CalList.OpenLevel | code_generator/cal_list.py:2054-2070 | a new level one deeper, as the nesting machine opens it |
| CalLists.CalList.ContinueLevel | code_generator/cal_list.py:2071-2112 | `#else`, the level's end or `#elif`, as the nesting machine continues |
| CalLists.CalList.PrjtLevels | code_generator/cal_list.py:2032-2112 | the nesting machine's step for one row |
| CalLists.CalList.PrjtDefRow | code_generator/cal_list.py:2032-2121 | a `$PRJT_DEF` row as specified |
| CalLists.CalList.ApplyMode | code_generator/cal_list.py:1656-2121 | the row's mode as specified |
| CalLists.CalList.WriteCalList | code_generator/cal_list.py:1560-2139 | `writeCalList` leaves the state and outcome of the specification's step |
| CalLists.CalList.ApplyRow | code_generator/cal_list.py:1576-2121 | the row's value, comment, widths and blank-line flags, and its mode applied |
| CalLists.CalList.FinishRow | code_generator/cal_list.py:2123-2130 | the texts sent, and the block counter moved on for a block-ending row |
| CalLists.CalList.SendTexts | code_generator/cal_list.py:2123-2126 | `writeCode` for the source, then for the header, as the group's files demand |
| CalLists.CalList.WriteRows | code_generator/cal_list.py:383-406 | the rows of one title written in turn, as the specification's loop does |
| CalLists.CalList.WriteRowAt | code_generator/cal_list.py:401-406 | one row written, the rest of the loop resumed after it |
| CalLists.CalList.WriteAllCode | code_generator/cal_list.py:374-406 | the write phase starts the array counter at zero and writes every stored row, titles in the order first stored |
| CalLists.CalList.WriteTitles | code_generator/cal_list.py:380-406 | the titles written in turn, as the specification's loop does |
| CalLists.CalList.WriteTitle | code_generator/cal_list.py:380-406 | one title's rows written, and the rest of the titles then resumed from the next title unless a row raised KeyError |

## Left out

- The GUI is left out, because the model has no display: Qt widgets, `QApplication.processEvents`, progress callbacks and message boxes. The widget lists of the make-code driver and the git dialog are sequences, and check states are booleans.
- `ReadCalList`'s ten-minute timeout is left out, because time is not modelled.
- Concurrency is left out: the thread-pool chunks of `ReadCalList` and the batch workers of the make-code driver. Batches are processed one after another.
- The read phase of `ReadCalList` (code_generator/cal_list.py:251-372) has no loop method. Its steps are modelled one by one: `CachedReadCell`, `PrefetchBatch`, `ChkOpCode`, `SetPragmaSection` and `SaveTempList`. `readRow`, `chkCalList` and `ChkCalListPos` are not part of this model, and without them no method can run the row sequence. The write phase is modelled as its loop (`CalLists.CalList.WriteAllCode`).
- CalWrite.PlainTexts: uses the corrected structure-member and variable lines, so the write pipeline models the program as intended. The as-written lines and their failures are stated separately (see Findings).
- CalWrite.WriteAllAlign: proves only how far the block counter moves: once per block-ending row. It does not prove that each row is written with the widths `saveTempList` recorded for its block. That pairing holds only when each title's rows are stored together and a boundary closes the last block. It fails in two cases: when a title key repeats, because the rows are regrouped under the first occurrence; and for rows after the last boundary, which get the default widths.
- CalLists.CalList.PrefetchBatch: caches the stripped value of each cell, as the corrected program would. The as-written prefetch, which caches raw values, is `CalRead.PrefetchCellAsWritten` (see Findings).
- MakeCodes.MakeCode.MakeCalListCode: keeps the `#if`/`#elif` choice as written. The corrected choice is `MakeCodes.OpenersFixed`, proved well nested by `MakeCodes.FixedNesting` (see Findings).
- Compiled accelerators (every `fast_*` function) are left out because their code is not available. The Python fallback they would replace is modelled instead.
- `_apply_float_suffix_to_float32_block` and `add_float_suffix_v2` are left out as dead code: the first indexes a boolean and the second is never called.
- The `if False:` branch of `readArrMem` is left out as dead code.
- The float formatting of cell values is left out: a text cell holds the value already rendered as a string.
- PyStr.Upper: upper-cases ASCII letters only, whereas Python's `str.upper` maps all Unicode letters. Header-file names are ASCII.
- PyStr.Lower: lower-cases ASCII letters only, whereas Python's `str.lower` maps all Unicode letters.
- PyStr.PyInt: accepts an optional sign and ASCII decimal digits only, whereas Python's `int()` also accepts `_` digit separators and non-ASCII decimal digits; so `int("1_0")` is 10 in Python but no number in the model, and an array size written `[1_0]` gives no size here.
- FloatSuffix.IsWordChar: approximates Python's Unicode `\w` as ASCII letters, digits, `_` and every non-ASCII non-whitespace character.
- FloatSuffix.IsNumeral: approximates `\d` by the ASCII digits, whereas Python's pattern also matches other Unicode decimal digits.
- Navigator.IsAlnum: approximates `str.isalnum` by ASCII letters and digits; Hangul is handled separately by `Navigator.IsHangul`.
- Averages and ratios (the production-mode sizes and the navigator's name-column score) are exact reals, not floating-point numbers, so rounding is not modelled.
- The Redis tier is an optional map. Its TTL, pickling and connection or command errors are left out, as are the md5 cache keys.
- MemCache.MemoryCache.constructor: requires `maxSize >= 1`. With a size of 0, the program's `set` would pop from an empty access order.
- The cache model never stores `None` as a value, because a stored `None` reads as a miss in the program.
- The database handlers and SQLite are opaque and left out.
- The `RuntimeError`s `DBManager` raises when a connection or a disconnection fails (data_manager/db_manager.py:105, 232) are left out, because the handlers are opaque.
- `create_and_add_database` and `add_multiple_databases` (data_manager/db_manager.py:107-173) are left out, because they create directories and files on disk.
- The trivial `DBManager` accessors (`get_database_names`, `get_database_count`, `has_databases`, `get_all_sheets_info`) are left out.
- DbManager.BaseName: splits on `/` and `\` only. A Windows drive prefix without a separator (`C:name`) is kept, whereas `os.path.basename` on Windows drops it.
- Git subprocess calls are left out; the status and name-status texts are parameters. A failing `git fetch` is not modelled.
- Left out from the git path handling: filename substitution against the filesystem and the working-directory hacks (utils/git_manager.py:906-935, 1002-1028), including the `7_Python_DB_Refactoring/` prefix; `_fix_known_path_issues`; and the octal-escape decoding of `_decode_unicode_escape_path`.
- GitStatus.NormalizeGitPath: does not make an absolute path relative to the working directory; that step returns no result.
- GitDialog.GitStatusDialog.UpdateFileList: requires distinct file names, as git lists each path once.
- GitDialog.GitStatusDialog.CheckNewFilesAfterDbClose: requires distinct file names, as git lists each path once.
- `_is_likely_name_column` (navigator/navigator_core.py:180-183) is left out, because nothing calls it.
- Logging and `print` output are left out. The exception is the error list of `Info.WriteErrCell`/`WriteErrMsg`, which the banner shows.
- The date of the generated banner is a parameter, because the clock is not modelled.

## Findings

| source | as written | input that shows it | evidently intended | confidence | as-written member | corrected member |
|---|---|---|---|---|---|---|
| code_generator/cal_list.py:1779-1791 | a `$STR_MEM` row with a value or a description computes `temp_str.length`, which raises AttributeError on a Python string | a member with a description, e.g. type `UINT8`, name `a`, description `x` | `len(temp_str)`, giving an aligned member line with its comment | high (not executed) | `DeclFormat.StrMemLine`, `DeclFormat.StrMemCommentFails` | `DeclFormat.StrMemLineCorrected`, `DeclFormat.StrMemCorrectedAligned` |
| code_generator/cal_list.py:1997-2005 | a `$VARIABLE` row without a value writes the name only to the source; the header line is `extern` and the type, with no name and no `;` | a variable of type `UINT8`, name `a`, no value | the header line declares the name: `extern UINT8 a;` | high (not executed) | `DeclFormat.VariableLines`, `DeclFormat.VariableHeaderLosesName` | `DeclFormat.VariableLinesCorrected`, `DeclFormat.VariableCorrectedDeclares` |
| code_generator/cal_list.py:436-447 | the batch prefetch caches the raw cell text, while a cache miss caches the stripped text `Info.ReadCell` returns | an opcode cell holding `"$DEFINE "` | cache the stripped value, so a prefetched cell reads as an unprefetched one | high (not executed) | `CalRead.PrefetchCellAsWritten`, `CalRead.PrefetchAsWrittenMisreadsOpCode` | `CalRead.PrefetchCell`, `CalRead.PrefetchRowsKeeps` |
| code_generator/make_code.py:711-716 | the first block of a title opens with `#if` only when it is sheet 0 or the sheet after `COMMON`; otherwise it opens with `#elif` | two sheets `A` and `B` where only `B` has code for a title | the first block written for a title opens with `#if` | high (not executed) | `MakeCodes.Openers`, `MakeCodes.ElifWithoutIf` | `MakeCodes.OpenersFixed`, `MakeCodes.FixedNesting` |
| ui/git_status_dialog.py:1138-1148 | the new files are added to the selection, then `update_file_list` rebuilds the selection from the default checks and drops them | a new file after the database closes whose default check is off | the new files stay selected after the rebuild | medium (not executed) | `GitDialog.GitStatusDialog.CheckNewFilesAfterDbClose`, `GitDialog.NewFileWithoutDefaultCheckIsDropped` | `GitDialog.GitStatusDialog.CheckNewFilesAfterDbCloseKeepingNew` |
