# Verified models from dde-file-manager

This project models four pieces of logic of the dde-file-manager repository in Dafny and
proves properties of them over all inputs and all runs. `dafny verify dfyconfig.toml`
checks everything.

| file | models |
|---|---|
| `Regex.dfy`, `CopyrightPatterns.dfy` | a backtracking matcher in the style of Python's `re`; the three year patterns of the copyright script as direct scans, and the proof that the scans find what the matcher finds |
| `CopyrightRewrite.dfy` | rewriting lines and files, and what the script reads back on a second and on every later run |
| `CopyrightUpdater.dfy` | the updater object, the four report lists, dry runs, repeated runs |
| `SizeFormat.dfy` | the size shown for a number of bytes, a reader for displayed sizes, the text for a `du` result |
| `StableSorting.dfy`, `FolderEntries.dfy` | what a stable sort must return; the scan, the order of the list, and its rows |
| `FolderContentWidget.dfy`, `FolderPreview.dfy` | the preview widget with its two background tasks, and the preview object that creates it lazily |
| `OpenFilesHook.dfy`, `Tokens.dfy`, `RemoveScheme.dfy` | the open-files hook and the URL scheme stripper of the extension example |
| `KeyDirectory.dfy` | the encrypt and decrypt handlers of the encryption demo as command sequences over a directory and an abstract TPM |
| `Text.dfy` | substring search, split and join, decimal numerals |

## How the models are built

**Copyright script.** Text is a `seq<char>` after decoding and newline translation. Digits
(`\d`) and white space (`\s`) beyond ASCII come from an arbitrary Unicode table, so every
result holds for every version of the character database. The target year is any integer,
as `--year` allows. Rewriting is proved equal to `re.sub` with the script's own patterns,
and parsing to `re.search`, against a matcher that returns matches in backtracking order.

The script is meant to settle after one run. It does not always: a year (single-year
notice) or a year range (range notice) standing in front of the SPDX token on the line it
parses is rewritten instead of the parsed year, so the file is rewritten on every run.
`LaterRuns` proves that this is the only way to fail for four-digit targets, for any
number of runs; `UnsettledExample` gives a line; `SecondRun` gives the exact condition for
every integer target. Targets outside 0..9999 are never reached (`LaterRunsOtherTargets`),
and targets of one to three digits only by files that start with that year
(`LaterRunsShortTargets`); for 0 the condition of `SecondRun` stands.

A file is unreadable or holds a text; overwriting it succeeds, or raises and leaves some
other text. A run works on any list of paths; results that need the list to be free of
repetitions say so (the script sorts the results of disjoint searches).

**Folder preview.** The visible state is a value (`View`); the widget is an object whose
methods are proved to transform that value. A load carries what its two tasks will
produce and what becomes of a `du` process it kills: it ends during the wait, calling
the finished slot with any exit code and output, or it outlives the 500 ms wait, in
which case the new `du` is not started. The new `du` may also fail to start. A finished
scan whose signal is still pending is a state of its own; setting a new future drops
that signal. Starting a process discards unread output of the previous one. The slot's
check for a cancelled future never stops it, since a load that cancels a scan replaces
its future. `QuiescentAgreement` shows that a finished widget equals a fresh widget on
the last folder, and exactly when this includes the size badge.

`double` arithmetic is idealised as exact real arithmetic (the division by 1024 is exact
in binary; the cast is exact up to 2^53). `QString::arg` with format `f` rounds the exact
value to nearest, halves upwards. The plugin's own README shows sizes such as `4.7 MB`;
the code prints two decimals below ten (`4.70 MB`), and the model follows the code.

**Extension example.** The hook is modelled with the access check and the fork as
inputs. `KateGetsThePaths` proves that kate receives the XML paths exactly when none of
them holds white space. `removeScheme` is not idempotent: `StripTwice` says for which
URLs. The comment in `mymenuplugin.cpp` says that newer file managers pass plain paths;
`StripChanges` shows that a plain path with `://` and a later slash is cut too.

**Encryption demo.** Each command reads and writes files and may fail at any time for
reasons of its own, leaving anything in the files it writes. The PCR value may change
between any two commands. A policy session unlocks a key if it went through the same
sequence of policy items as at creation, its PCR items still have the current value, and
the password fits; in a policy session the TPM compares a supplied PCR value with the
current one. The primary key is the same every time it is created. `echo` writes its
argument and a newline. The handlers fix the unlock type to 2; the model covers all
three types and the unknown-type branches. Encrypting again overwrites the nonce of the
previous encryption with its second command, so a later failure of that run loses what
was sealed (`FailedEncrypt`).

## Model

| member | source | states |
|---|---|---|
| CopyrightPatterns.CharacterClasses | assets/scripts/update_copyright_year.py:109-159 | the three dashes of the patterns, and the ASCII characters that `\d` and `\s` accept, spelled out with the digits' values; the classes are disjoint |
| CopyrightPatterns.ParseLineIsSearch | assets/scripts/update_copyright_year.py:109-113 | the scan for years finds something on a line exactly when `re.search` with the parse pattern matches, and its years are the values of the match's groups |
| CopyrightPatterns.ExtendYearIsSub | assets/scripts/update_copyright_year.py:150-155 | the single-year rewriting is `re.sub` of the first four digits, count 1 |
| CopyrightPatterns.ReplaceEndIsSub | assets/scripts/update_copyright_year.py:159-161 | the range rewriting is `re.sub` of the first year range, count 1 |
| CopyrightRewrite.UpdatedLineReads | assets/scripts/update_copyright_year.py:147-161 | parser and rewriter agree: the updated line parses to the same start year with the target read as end year, or to exactly the old years if the update's pattern matches before the token |
| CopyrightRewrite.UnparsedStaysUnparsed | assets/scripts/update_copyright_year.py:107-113 | a tagged line without a year after its token has none after any update either |
| CopyrightRewrite.SelectionStable | assets/scripts/update_copyright_year.py:105-113 | rewriting all tagged lines keeps the selected line, the fact that it parses, and its start year |
| CopyrightRewrite.VerdictBySearch | assets/scripts/update_copyright_year.py:104-133 | the first of the first twenty lines that `re.search` matches decides: the file is up to date exactly when the match's end year, or else its only year, is the target, and is rewritten otherwise |
| CopyrightRewrite.NoNoticeBySearch | assets/scripts/update_copyright_year.py:104-115 | a file counts as one without a notice exactly when none of its first twenty lines matches |
| CopyrightRewrite.RewrittenBySearch | assets/scripts/update_copyright_year.py:147-198 | every line of a rewritten file that holds the token is what `re.sub` makes of it, with the pattern chosen by the deciding match; every other line is as it was |
| CopyrightRewrite.SecondRun | assets/scripts/update_copyright_year.py:173-205 | for every integer target, a rewritten file is up to date the next time exactly when its selected line settles, and is rewritten again otherwise |
| CopyrightRewrite.SecondRunFourDigits | assets/scripts/update_copyright_year.py:173-205 | for four-digit targets the second run skips the file exactly when the update's pattern does not match before the token of the selected line |
| CopyrightRewrite.LaterRuns | assets/scripts/update_copyright_year.py:173-205 | over any number of runs, a file needing an update is rewritten by every run if its selected line matches before the token, and only by the first run otherwise |
| CopyrightRewrite.LaterRunsOtherTargets | assets/scripts/update_copyright_year.py:117-133 | a target outside 0..9999 is never read back, so every run, however many, rewrites the file |
| CopyrightRewrite.LaterRunsShortTargets | assets/scripts/update_copyright_year.py:117-161 | a target of one to three digits brings a file up to date in some run exactly when it is the file's start year; otherwise every run rewrites the file |
| CopyrightRewrite.UnsettledExample | assets/scripts/update_copyright_year.py:147-155 | a concrete notice that is rewritten again by the second run |
| CopyrightRewrite.EveryLineUpdated | assets/scripts/update_copyright_year.py:191-196 | not only the selected line: every line with years reads with the target as end year afterwards, and reads as before exactly if the pattern matches before its token or it holds a single year in a file with a range |
| CopyrightRewrite.TextConserved | assets/scripts/update_copyright_year.py:188-198 | same number of lines, untouched lines unchanged, length grows by a fixed amount per touched line: 7 in the single-year case and 0 in the range case for four-digit targets |
| Text.IntNumeralReads | assets/scripts/update_copyright_year.py:152-160 | the target is printed as a minus sign if it is negative and its digits without leading zeros |
| Text.JoinSplit | assets/scripts/update_copyright_year.py:188-198 | joining the split content gives the content back |
| Text.SplitJoin | assets/scripts/update_copyright_year.py:188-198 | splitting joined lines gives the lines back |
| CopyrightUpdater.Updater.ParseCopyrightYear | assets/scripts/update_copyright_year.py:92-115 | the loop over the first twenty lines returns the years of the first line that has any |
| CopyrightUpdater.Updater.UpdateContent | assets/scripts/update_copyright_year.py:188-198 | the loop rewrites exactly the tagged lines and joins them |
| CopyrightUpdater.Updater.ProcessFile | assets/scripts/update_copyright_year.py:163-212 | one file is filed into one list by its outcome, the disk changes by that file only, and the result says whether it was updated |
| CopyrightUpdater.Updater.Run | assets/scripts/update_copyright_year.py:214-247 | a run visits the files in order; report and disk are those of the sequence of visits |
| CopyrightUpdater.Accounting | assets/scripts/update_copyright_year.py:62-69 | the four lists together hold every scanned path as often as it was scanned, and their lengths add up to the scanned files |
| CopyrightUpdater.RunAccounting | assets/scripts/update_copyright_year.py:230-247 | after a whole run this number is the total number of files |
| CopyrightUpdater.ListedInOrder | assets/scripts/update_copyright_year.py:180-211 | each list is in scan order and holds every path of its outcome |
| CopyrightUpdater.ExactlyOneList | assets/scripts/update_copyright_year.py:173-212 | a file of a run without repetitions is in the list its own content decides and in no other |
| CopyrightUpdater.WhereFilesGo | assets/scripts/update_copyright_year.py:179-212 | which content goes into which of the four lists, dry run or not, unreadable and unwritable files included |
| CopyrightUpdater.WhatFilesHold | assets/scripts/update_copyright_year.py:188-212 | what each file holds after the run: the rewritten text, what a failed write left, or what it held before |
| CopyrightUpdater.FileByFile | assets/scripts/update_copyright_year.py:236-243 | such a run leaves each file as if it were the only one, and other files alone |
| CopyrightUpdater.DryRunChangesNothing | assets/scripts/update_copyright_year.py:200-202 | a dry run changes no file |
| CopyrightUpdater.DryRunPredicts | assets/scripts/update_copyright_year.py:200-212 | the dry run gives the report of the real run exactly when every file that needs an update can be written |
| CopyrightUpdater.SecondSweep | assets/scripts/update_copyright_year.py:163-212 | running again moves every updated file to the skipped list, or updates it again if its selected line matches before the token; other files keep their list |
| SizeFormat.FormatSize | examples/folder-preview-example/foldercontentwidget.cpp:541-558 | the loop computes the displayed text, proved about in the rows below |
| SizeFormat.ScaleKeepsBytes | examples/folder-preview-example/foldercontentwidget.cpp:549-554 | scaling keeps value times unit, ends with a value of at least 1 that is below 1024 or in TB |
| SizeFormat.SmallSizeText | examples/folder-preview-example/foldercontentwidget.cpp:543-556 | below 1024 bytes the text is the number and "B", for negative numbers a dash |
| SizeFormat.LargeSizeText | examples/folder-preview-example/foldercontentwidget.cpp:548-557 | from 1024 bytes on the text names the largest unit not above the size, with two decimals below ten units and one from there on |
| SizeFormat.SizeReadsBack | examples/folder-preview-example/foldercontentwidget.cpp:543-557 | the displayed text parses back, as number, space and unit, to the rounded number of bytes |
| SizeFormat.SizeIsClose | examples/folder-preview-example/foldercontentwidget.cpp:543-557 | bytes below 1024 are exact; above, the display is within 0.005 or 0.05 units, at least one unit, and never above 1024.0 below TB |
| SizeFormat.DisplayMonotone | examples/folder-preview-example/foldercontentwidget.cpp:541-558 | more bytes never display as less, across the change of decimals at ten and across units |
| SizeFormat.DuLineShowsSize | examples/folder-preview-example/foldercontentwidget.cpp:227-243 | a line "bytes, tab, path" shows the formatted size for any path, and N/A if the number exceeds a qint64 |
| SizeFormat.FirstPartIs | examples/folder-preview-example/foldercontentwidget.cpp:227-233 | trimming and splitting yield what stands between leading blanks and the first tab or the trailing blanks |
| SizeFormat.DuFailureShowsNothing | examples/folder-preview-example/foldercontentwidget.cpp:221-243 | the badge shows N/A exactly when du fails or the first part of its output spells no number from 0 to the limit of a qint64, and the formatted size otherwise |
| StableSorting.StableSortCorrect | examples/folder-preview-example/foldercontentwidget.cpp:487-494 | for any strict weak order the sort is ordered, a permutation, and keeps the order of equivalent elements |
| StableSorting.StableSortIs | examples/folder-preview-example/foldercontentwidget.cpp:487-494 | the contract of a stable sort determines its result, so any implementation returns this one |
| FolderEntries.Scan | examples/folder-preview-example/foldercontentwidget.cpp:173-187 | the scan returns the listing with its numbers of directories and of other entries, which add up |
| FolderEntries.StringLessIs | examples/folder-preview-example/foldercontentwidget.cpp:492-493 | strings are compared at their first difference, and a proper prefix comes first |
| FolderEntries.ListIsSorted | examples/folder-preview-example/foldercontentwidget.cpp:486-497 | the list is the only permutation of the entries with directories first, then case-folded names, ties in scan order |
| FolderEntries.CountsMatchList | examples/folder-preview-example/foldercontentwidget.cpp:179-185 | the leading rows, as many as the folder badge counts, are exactly the directories |
| FolderEntries.ItemShowsEntry | examples/folder-preview-example/foldercontentwidget.cpp:504-535 | a row shows the name, a dash for a directory and for any other entry a text that reads back as its size, and is keyed by "0:" or "1:" and the lower-cased name |
| StableSorting.SameSortIff | examples/folder-preview-example/foldercontentwidget.cpp:487-494 | two orders sort a sequence the same way exactly when they agree on every later element against every earlier one |
| FolderEntries.KeySortAgrees | examples/folder-preview-example/foldercontentwidget.cpp:487-534 | sorting a folder by the stored key gives the order of the list exactly when lower-casing orders every later entry against every earlier one of its kind as case folding does |
| FolderEntries.KeySortExample | examples/folder-preview-example/foldercontentwidget.cpp:532-534 | two file names, one of them a long s, that the key and the list order differently |
| FolderContentWidget.Widget.LoadFolder | examples/folder-preview-example/foldercontentwidget.cpp:138-197 | a load resets labels, badges and list, replaces the scan, stops the old du with its callback, and starts the new one if it can |
| FolderContentWidget.Widget.OnScanFinished | examples/folder-preview-example/foldercontentwidget.cpp:201-217 | the slot shows the counts and the sorted list of the finished scan |
| FolderContentWidget.Widget.OnDuFinished | examples/folder-preview-example/foldercontentwidget.cpp:219-244 | the slot shows the text for the exit code and output |
| FolderContentWidget.EveryRun | examples/folder-preview-example/foldercontentwidget.cpp:138-244 | at every moment of every run, everything shown is determined by the last accepted load and by which of its tasks have finished |
| FolderContentWidget.QuiescentAgreement | examples/folder-preview-example/foldercontentwidget.cpp:138-244 | once both tasks have finished, the widget equals a fresh widget on the last folder, including the size exactly when the last load's own du decided it |
| FolderContentWidget.FreshViewShowsFolder | examples/folder-preview-example/foldercontentwidget.cpp:474-535 | what a fresh widget shows: labels of the URL, counts that add up to the rows, directories leading, every row's columns, the size of its du |
| FolderContentWidget.FileNameIs | examples/folder-preview-example/foldercontentwidget.cpp:147-148 | the file name is the part after the last slash |
| FolderContentWidget.FileNameSplits | examples/folder-preview-example/foldercontentwidget.cpp:147-148 | every path is a part that is empty or ends with a slash, followed by its file name |
| FolderContentWidget.OldSizeOnlyWhileRunning | examples/folder-preview-example/foldercontentwidget.cpp:191-195 | while the last load's du runs, the badge shows the placeholder or the result of the process that load stopped |
| FolderContentWidget.LingeringDuShowsOldSize | examples/folder-preview-example/foldercontentwidget.cpp:191-195 | a du that outlives the wait leaves the previous folder's size on the finished widget |
| FolderPreview.FolderPreviewer.SetFileUrl | examples/folder-preview-example/folderpreview.cpp:28-59 | rejects, ignores or adopts a URL, loading it into a live widget; says whether the URL is previewable |
| FolderPreview.FolderPreviewer.ContentWidget | examples/folder-preview-example/folderpreview.cpp:66-77 | returns the one live widget, creating it and loading the current URL if there is none |
| FolderPreview.UrlAndTitle | examples/folder-preview-example/folderpreview.cpp:41-49 | after any run, URL and title are those of the last accepted URL |
| FolderPreview.WidgetLives | examples/folder-preview-example/folderpreview.cpp:66-77 | after any run there is a widget exactly if one was asked for and none was destroyed since |
| FolderPreview.LiveWidget | examples/folder-preview-example/folderpreview.cpp:53-77 | after any run, a live widget has the state its events since creation lead to, and its last load is that of the current URL |
| FolderPreview.PreviewAgreement | examples/folder-preview-example/folderpreview.cpp:28-82 | after any run, a live widget has loaded exactly the current URL and its header is the title; once its tasks finish it shows that folder |
| FolderPreview.TitleIsLastName | examples/folder-preview-example/folderpreview.cpp:46-49 | after any run, the title and the header of a live widget are the last part of the last accepted path, or the whole path if it ends with a slash |
| FolderPreview.RejectedUrlIsIgnored | examples/folder-preview-example/folderpreview.cpp:30-44 | setting a URL changes nothing exactly when it is invalid, not local, not a directory, or already current |
| OpenFilesHook.OpenFiles | examples/dfm-extension-example/myfileplugin.cpp:43-104 | without kate nothing happens; otherwise the other paths are appended to the caller's list in order, and if there are XML paths and the fork works, execvp reads the program and the words of the XML paths |
| OpenFilesHook.BuildArgv | examples/dfm-extension-example/myfileplugin.cpp:86-92 | what execvp reads from the array, up to the first null pointer, is the program and every file in order, and the array ends there |
| OpenFilesHook.SplitWords | examples/dfm-extension-example/myfileplugin.cpp:79-84 | the extraction loop yields the maximal runs without white space |
| OpenFilesHook.Partition | examples/dfm-extension-example/myfileplugin.cpp:56-67 | XML paths and the others together are the given paths with multiplicity, split by the suffix test |
| OpenFilesHook.SelectedInOrder | examples/dfm-extension-example/myfileplugin.cpp:56-67 | both parts keep the order of the given paths and miss none |
| OpenFilesHook.XmlPaths | examples/dfm-extension-example/myfileplugin.cpp:57 | the XML paths are a non-empty name followed by ".xml" |
| OpenFilesHook.WordsOfJoin | examples/dfm-extension-example/myfileplugin.cpp:58-62 | splitting the joined string gives the words of each path in turn |
| OpenFilesHook.KateGetsThePaths | examples/dfm-extension-example/myfileplugin.cpp:56-94 | what execvp reads is the program and exactly the XML paths if and only if none of them contains a white space character |
| Tokens.BlankCharacters | examples/dfm-extension-example/myfileplugin.cpp:82 | the six characters at which the extraction stops |
| RemoveScheme.StripInvertsBuild | examples/dfm-extension-example/mymenuplugin.cpp:191-205 | stripping scheme, mark and authority off an absolute path gives the path exactly when the authority has no slash |
| RemoveScheme.StripChanges | examples/dfm-extension-example/mymenuplugin.cpp:196-202 | exactly the strings with a mark and a later slash change, into a proper suffix that starts with a slash |
| RemoveScheme.StripTwice | examples/dfm-extension-example/mymenuplugin.cpp:191-205 | stripping twice is stripping once exactly when the URL does not hold a mark, a slash after it, and from there on a mark with a slash after it again |
| RemoveScheme.StripTwiceBuild | examples/dfm-extension-example/mymenuplugin.cpp:191-205 | stripping a built URL twice gives its path exactly when the path itself holds nothing to strip |
| RemoveScheme.StripTwiceExample | examples/dfm-extension-example/mymenuplugin.cpp:191-205 | a URL that loses more with the second stripping |
| Tokens.EchoReadsBack | examples/dfmplugin-encrypt-manager-demo/mainwindow.cpp:593-598 | a line written by echo is read back exactly when it holds no white space |
| KeyDirectory.Demo.EncryptThree | examples/dfmplugin-encrypt-manager-demo/mainwindow.cpp:426-525 | the handler runs the encryption script with early return, and fails for unknown types |
| KeyDirectory.Demo.DecryptThree | examples/dfmplugin-encrypt-manager-demo/mainwindow.cpp:556-615 | the handler runs the decryption script, shows the first word of the clear file, and cleans up |
| KeyDirectory.EncryptReadsOwnFiles | examples/dfmplugin-encrypt-manager-demo/mainwindow.cpp:426-521 | every command of an encryption reads only files written earlier in the same run |
| KeyDirectory.EncryptIgnoresDirectory | examples/dfmplugin-encrypt-manager-demo/mainwindow.cpp:426-521 | whether an encryption succeeds does not depend on what the directory held |
| KeyDirectory.EncryptWrites | examples/dfmplugin-encrypt-manager-demo/mainwindow.cpp:509-521 | the files an encryption writes are its temporaries and the four it keeps |
| KeyDirectory.EncryptSeals | examples/dfmplugin-encrypt-manager-demo/mainwindow.cpp:426-521 | a successful encryption leaves nonce, key parts and cipher, none of its temporaries, and everything else as it was |
| KeyDirectory.EncryptSucceeds | examples/dfmplugin-encrypt-manager-demo/mainwindow.cpp:433-506 | with no failure of its own it succeeds exactly for the three types, and with a PCR policy only if the PCR keeps its value |
| KeyDirectory.UnknownType | examples/dfmplugin-encrypt-manager-demo/mainwindow.cpp:426-454 | with an unknown type, encryption and decryption fail, and what they have done to files and sessions by then |
| KeyDirectory.FailedEncrypt | examples/dfmplugin-encrypt-manager-demo/mainwindow.cpp:426-525 | a failing encryption with a new nonce leaves what an earlier one sealed intact exactly when it fails before the nonce is overwritten; after that the old cipher opens with nothing in the directory |
| KeyDirectory.DecryptReadsKeptFiles | examples/dfmplugin-encrypt-manager-demo/mainwindow.cpp:556-591 | every command of a decryption reads only the four kept files and its own |
| KeyDirectory.DecryptIgnoresOthers | examples/dfmplugin-encrypt-manager-demo/mainwindow.cpp:556-600 | whether a decryption succeeds, and the text it shows, depend on the four kept files only |
| KeyDirectory.DecryptNeedsKeptFiles | examples/dfmplugin-encrypt-manager-demo/mainwindow.cpp:556-600 | from any directory, a decryption succeeds only with all four kept files there and key parts that belong together |
| KeyDirectory.DecryptWrites | examples/dfmplugin-encrypt-manager-demo/mainwindow.cpp:603-608 | the clean-up list of a decryption is exactly what its script writes |
| KeyDirectory.DecryptTouches | examples/dfmplugin-encrypt-manager-demo/mainwindow.cpp:556-614 | any attempt, cut short anywhere, changes nothing but its temporaries |
| KeyDirectory.DecryptOpens | examples/dfmplugin-encrypt-manager-demo/mainwindow.cpp:556-600 | from a sealed directory, success shows the echoed text read back and implies that PCR and PIN are the old ones, which suffices if nothing else fails |
| KeyDirectory.DecryptCleansUp | examples/dfmplugin-encrypt-manager-demo/mainwindow.cpp:603-608 | a successful decryption with a working clean-up leaves no temporaries |
| KeyDirectory.NoSessionsLeft | examples/dfmplugin-encrypt-manager-demo/mainwindow.cpp:507-614 | a successful encryption or decryption has flushed every session it opened |
| KeyDirectory.EncryptThenDecrypts | examples/dfmplugin-encrypt-manager-demo/mainwindow.cpp:389-615 | after one encryption and any number of attempts with any PINs and failures, every success shows the plaintext exactly if it holds no white space, and an attempt without failure of its own succeeds exactly when PCR and PIN are those of the encryption |

## Left out

- The rest of the repository (`src/`, translations, other examples, headers) is not part of this model.
- Directory walking, console output, report text and argument parsing of the copyright script.
- Error texts in the error list: only the path is kept.
- Decoding of bytes: `errors='ignore'` and newline translation happen before the model's text.
- `OnScanFinished`: the sort is a function on values, not in place, because std::stable_sort is a library call whose result the model characterises.
- `FormatSize`: the rounding of the cast to `double` above 2^53 is idealised as exact.
- `DuText`: a number followed by blanks before the tab is taken to be no number; `du` writes no such line.
- Icons, dates, MIME descriptions, style sheets, layout, and the tree widget's own sorting by its first column.
- The destructors of widget and preview, and the emission of titleChanged.
- `SetFileUrl`: whether the path is a directory is an input of the call.
- `OpenFiles`: a path with an embedded NUL character, which the C string interface would cut.
- `StripInvertsBuild`: a scheme that itself contains the mark `://` is excluded, as URLs have none.
- Shell quoting: `echo` is taken to reproduce its argument.
- Real TPM cryptography, session parameters, and the first encrypt and decrypt handlers of the demo.
- `DecryptCleansUp`: what a failing clean-up command leaves among the temporaries is unconstrained.
