/** The updater itself: files on a disk, the four report lists, and whole runs. */
module CopyrightUpdater {
  import opened Text
  import opened CopyrightPatterns
  import opened CopyrightRewrite

  /** What trying to overwrite a file leads to: success, or an exception that
      leaves some other text behind. */
  datatype Access = Writable | WriteFails(left: string)

  /** A file as the script meets it. `content` is the text after decoding and
      newline translation. */
  datatype File = Unreadable | Text(content: string, access: Access)

  type Disk = map<string, File>

  /** The report list a file is filed into. */
  datatype Outcome = Updated | Skipped | NoCopyrightNotice | Error

  // ----- one file -----

  function OutcomeOf(u: Unicode, target: int, dryRun: bool, file: File): Outcome {
    match file
    case Unreadable => Error
    case Text(content, access) =>
      match Process(u, content, target)
      case NoCopyright => NoCopyrightNotice
      case UpToDate => Skipped
      case Rewritten(_) => if dryRun || access.Writable? then Updated else Error
  }

  function FileAfter(u: Unicode, target: int, dryRun: bool, file: File): File {
    match file
    case Unreadable => file
    case Text(content, access) =>
      match Process(u, content, target)
      case NoCopyright => file
      case UpToDate => file
      case Rewritten(text) =>
        if dryRun then file
        else if access.Writable? then Text(text, access)
        else Text(access.left, access)
  }

  /** A path that does not name a file any more cannot be opened. */
  function Lookup(disk: Disk, path: string): File {
    if path in disk then disk[path] else Unreadable
  }

  function Visit(u: Unicode, target: int, dryRun: bool, disk: Disk, path: string): Disk {
    if path in disk then disk[path := FileAfter(u, target, dryRun, disk[path])] else disk
  }

  // ----- a run over a list of files -----

  function DiskAfter(u: Unicode, target: int, dryRun: bool, disk: Disk, paths: seq<string>): Disk {
    if paths == [] then disk
    else
      var n := |paths| - 1;
      Visit(u, target, dryRun, DiskAfter(u, target, dryRun, disk, paths[..n]), paths[n])
  }

  function Outcomes(u: Unicode, target: int, dryRun: bool, disk: Disk, paths: seq<string>): (r: seq<Outcome>)
    ensures |r| == |paths|
  {
    if paths == [] then []
    else
      var n := |paths| - 1;
      Outcomes(u, target, dryRun, disk, paths[..n])
      + [OutcomeOf(u, target, dryRun, Lookup(DiskAfter(u, target, dryRun, disk, paths[..n]), paths[n]))]
  }

  /** The paths with a given outcome, in scan order. */
  function Listed(paths: seq<string>, outcomes: seq<Outcome>, which: Outcome): (r: seq<string>)
    requires |paths| == |outcomes|
  {
    if paths == [] then []
    else
      var n := |paths| - 1;
      Listed(paths[..n], outcomes[..n], which) + if outcomes[n] == which then [paths[n]] else []
  }

  datatype Report = Report(totalFiles: nat, scannedFiles: nat, updated: seq<string>, skipped: seq<string>,
                           noCopyright: seq<string>, errors: seq<string>)
  {
    /** Filing one more scanned file. */
    function File(path: string, outcome: Outcome): Report {
      match outcome
      case Updated => this.(updated := updated + [path])
      case Skipped => this.(skipped := skipped + [path])
      case NoCopyrightNotice => this.(noCopyright := noCopyright + [path])
      case Error => this.(errors := errors + [path])
    }
  }

  /** The report after scanning `paths`, the first files of a run over `total`. */
  function ReportOf(total: nat, paths: seq<string>, outcomes: seq<Outcome>): Report
    requires |paths| == |outcomes|
  {
    Report(total, |paths|, Listed(paths, outcomes, Updated), Listed(paths, outcomes, Skipped),
           Listed(paths, outcomes, NoCopyrightNotice), Listed(paths, outcomes, Error))
  }

  // ----- the updater as an object -----

  class FileSystem {
    var files: Disk
    constructor (files: Disk) ensures this.files == files { this.files := files; }
  }

  class Updater {
    const u: Unicode
    const targetYear: int
    const dryRun: bool
    const fileSystem: FileSystem
    var totalFiles: nat
    var scannedFiles: nat
    var updatedFiles: seq<string>
    var skippedFiles: seq<string>
    var noCopyrightFiles: seq<string>
    var errorFiles: seq<string>

    ghost function CurrentReport(): Report
      reads this
    {
      Report(totalFiles, scannedFiles, updatedFiles, skippedFiles, noCopyrightFiles, errorFiles)
    }

    constructor (u: Unicode, fileSystem: FileSystem, targetYear: int, dryRun: bool)
      ensures this.u == u && this.fileSystem == fileSystem && this.targetYear == targetYear && this.dryRun == dryRun
      ensures CurrentReport() == Report(0, 0, [], [], [], [])
    {
      this.u, this.fileSystem, this.targetYear, this.dryRun := u, fileSystem, targetYear, dryRun;
      totalFiles, scannedFiles := 0, 0;
      updatedFiles, skippedFiles, noCopyrightFiles, errorFiles := [], [], [], [];
    }

    /** The years of the first of the leading lines that has any. */
    method ParseCopyrightYear(content: string) returns (years: Option<Years>)
      ensures years == ParseLines(u, Split(content, '\n'))
    {
      var all := Split(content, '\n');
      var lines := if |all| <= HEADER_LINES then all else all[..HEADER_LINES];
      var i := 0;
      while i < |lines|
        invariant 0 <= i <= |lines|
        invariant SelectFrom(u, all, 0) == SelectFrom(u, all, i)
      {
        years := ParseLine(u, lines[i]);
        if years.Some? {
          return;
        }
        i := i + 1;
      }
      years := None;
    }

    /** The loop of `process_file` over all lines of the file. */
    method UpdateContent(content: string, end: Option<int>) returns (newContent: string)
      ensures newContent == Join(RewriteLines(u, Split(content, '\n'), end, targetYear), '\n')
    {
      hide UpdateLine, Tagged;
      var lines := Split(content, '\n');
      var updatedLines: seq<string> := [];
      for i := 0 to |lines|
        invariant |updatedLines| == i
        invariant forall k :: 0 <= k < i ==> updatedLines[k] == RewriteLine(u, lines[k], end, targetYear)
      {
        if Tagged(lines[i]) {
          updatedLines := updatedLines + [UpdateLine(u, lines[i], end, targetYear)];
        } else {
          updatedLines := updatedLines + [lines[i]];
        }
      }
      assert updatedLines == RewriteLines(u, lines, end, targetYear);
      newContent := Join(updatedLines, '\n');
    }

    method ProcessFile(path: string) returns (updated: bool)
      modifies this, fileSystem
      ensures fileSystem.files == Visit(u, targetYear, dryRun, old(fileSystem.files), path)
      ensures var outcome := OutcomeOf(u, targetYear, dryRun, Lookup(old(fileSystem.files), path));
           && CurrentReport() == old(CurrentReport()).File(path, outcome)
           && updated == outcome.Updated?
    {
      hide ParseLines, RewriteLines, Split, Join;
      updated := false;
      if path !in fileSystem.files || fileSystem.files[path].Unreadable? {
        errorFiles := errorFiles + [path];
        return;
      }
      var file := fileSystem.files[path];
      var content := file.content;
      var parsed := ParseCopyrightYear(content);
      if parsed.None? {
        noCopyrightFiles := noCopyrightFiles + [path];
        return;
      }
      var years := parsed.value;
      if !NeedsUpdate(years, targetYear) {
        skippedFiles := skippedFiles + [path];
        return;
      }
      var newContent := UpdateContent(content, years.end);
      if !dryRun {
        match file.access
        case Writable =>
          fileSystem.files := fileSystem.files[path := Text(newContent, file.access)];
        case WriteFails(left) =>
          fileSystem.files := fileSystem.files[path := Text(left, file.access)];
          errorFiles := errorFiles + [path];
          return;
      }
      updatedFiles := updatedFiles + [path];
      updated := true;
    }

    /** A whole run on a fresh updater. */
    method Run(sourceFiles: seq<string>)
      requires CurrentReport() == Report(0, 0, [], [], [], [])
      modifies this, fileSystem
      ensures fileSystem.files == DiskAfter(u, targetYear, dryRun, old(fileSystem.files), sourceFiles)
      ensures CurrentReport() == ReportOf(|sourceFiles|, sourceFiles,
                                          Outcomes(u, targetYear, dryRun, old(fileSystem.files), sourceFiles))
    {
      ghost var disk := fileSystem.files;
      totalFiles := |sourceFiles|;
      for i := 0 to |sourceFiles|
        invariant fileSystem.files == DiskAfter(u, targetYear, dryRun, disk, sourceFiles[..i])
        invariant CurrentReport() == ReportOf(|sourceFiles|, sourceFiles[..i],
                                              Outcomes(u, targetYear, dryRun, disk, sourceFiles[..i]))
      {
        assert sourceFiles[..i + 1][..i] == sourceFiles[..i];
        ReportGrows(u, targetYear, dryRun, disk, sourceFiles[..i + 1], |sourceFiles|);
        scannedFiles := scannedFiles + 1;
        var updated := ProcessFile(sourceFiles[i]);
      }
      assert sourceFiles[..|sourceFiles|] == sourceFiles;
    }
  }

  lemma {:induction false} ReportGrows(u: Unicode, target: int, dryRun: bool, disk: Disk, paths: seq<string>, total: nat)
    requires paths != []
    ensures var n := |paths| - 1;
         && var before := ReportOf(total, paths[..n], Outcomes(u, target, dryRun, disk, paths[..n]));
         && ReportOf(total, paths, Outcomes(u, target, dryRun, disk, paths))
         == before.(scannedFiles := n + 1).File(paths[n],
              OutcomeOf(u, target, dryRun, Lookup(DiskAfter(u, target, dryRun, disk, paths[..n]), paths[n])))
  {
    hide OutcomeOf;
    var n := |paths| - 1;
    var os := Outcomes(u, target, dryRun, disk, paths);
    assert os[..n] == Outcomes(u, target, dryRun, disk, paths[..n]);
    FiledInTurn(total, paths, os);
  }

  // ----- accounting -----

  lemma {:induction false} ListedMember(paths: seq<string>, outcomes: seq<Outcome>, which: Outcome, path: string)
    requires |paths| == |outcomes|
    ensures path in Listed(paths, outcomes, which)
       <==> exists i :: 0 <= i < |paths| && paths[i] == path && outcomes[i] == which
    decreases |paths|
  {
    if paths != [] {
      var n := |paths| - 1;
      ListedMember(paths[..n], outcomes[..n], which, path);
      if i :| 0 <= i < |paths| && paths[i] == path && outcomes[i] == which {
        if i < n {
          assert paths[..n][i] == path && outcomes[..n][i] == which;
        }
      }
    }
  }

  function AllListed(r: Report): multiset<string> {
    multiset(r.updated) + multiset(r.skipped) + multiset(r.noCopyright) + multiset(r.errors)
  }

  function Entries(r: Report): nat {
    |r.updated| + |r.skipped| + |r.noCopyright| + |r.errors|
  }

  /** Scanning and filing a path adds it to one list. */
  lemma {:induction false} FiledOnce(r: Report, path: string, outcome: Outcome)
    ensures var next := r.(scannedFiles := r.scannedFiles + 1).File(path, outcome);
         && AllListed(next) == AllListed(r) + multiset{path}
         && Entries(next) == Entries(r) + 1
         && next.scannedFiles == r.scannedFiles + 1
  {
  }

  lemma {:induction false} FiledInTurn(total: nat, paths: seq<string>, outcomes: seq<Outcome>)
    requires |paths| == |outcomes| && paths != []
    ensures var n := |paths| - 1;
         && ReportOf(total, paths, outcomes)
         == ReportOf(total, paths[..n], outcomes[..n]).(scannedFiles := n + 1).File(paths[n], outcomes[n])
  {
    var n := |paths| - 1;
    assert forall w :: Listed(paths[..n], outcomes[..n], w) + [] == Listed(paths[..n], outcomes[..n], w);
  }

  /** Every path is listed as often as it was scanned, and the lengths of the
      lists add up to the number of scanned files. */
  predicate Accounted(r: Report, paths: seq<string>) {
    AllListed(r) == multiset(paths) && Entries(r) == r.scannedFiles && r.scannedFiles == |paths|
  }

  lemma {:induction false} AccountedNext(r: Report, paths: seq<string>, path: string, outcome: Outcome)
    requires Accounted(r, paths)
    ensures Accounted(r.(scannedFiles := |paths| + 1).File(path, outcome), paths + [path])
  {
    FiledOnce(r, path, outcome);
    hide AllListed, Entries;
  }

  lemma {:induction false} NothingScanned(total: nat)
    ensures Accounted(ReportOf(total, [], []), [])
  {
  }

  /** Every scanned file is in exactly one list. */
  lemma {:induction false} Accounting(total: nat, paths: seq<string>, outcomes: seq<Outcome>)
    requires |paths| == |outcomes|
    ensures Accounted(ReportOf(total, paths, outcomes), paths)
    decreases |paths|
  {
    hide ReportOf, Accounted;
    if paths == [] {
      assert outcomes == [];
      NothingScanned(total);
    } else {
      var n := |paths| - 1;
      Accounting(total, paths[..n], outcomes[..n]);
      FiledInTurn(total, paths, outcomes);
      AccountedNext(ReportOf(total, paths[..n], outcomes[..n]), paths[..n], paths[n], outcomes[n]);
      assert paths == paths[..n] + [paths[n]];
    }
  }

  /** The same for a whole run, in which every file found is scanned. */
  lemma {:induction false} RunAccounting(u: Unicode, target: int, dryRun: bool, disk: Disk, paths: seq<string>)
    ensures var r := ReportOf(|paths|, paths, Outcomes(u, target, dryRun, disk, paths));
         && Accounted(r, paths)
         && r.scannedFiles == r.totalFiles
  {
    Accounting(|paths|, paths, Outcomes(u, target, dryRun, disk, paths));
  }

  /** A list holds the paths of its outcome in scan order. */
  lemma {:induction false} ListedInOrder(paths: seq<string>, outcomes: seq<Outcome>, which: Outcome) returns (at: seq<nat>)
    requires |paths| == |outcomes|
    ensures |at| == |Listed(paths, outcomes, which)|
    ensures forall k :: 0 <= k < |at| ==>
              at[k] < |paths| && paths[at[k]] == Listed(paths, outcomes, which)[k] && outcomes[at[k]] == which
    ensures forall j, k :: 0 <= j < k < |at| ==> at[j] < at[k]
    ensures forall i :: 0 <= i < |paths| && outcomes[i] == which ==> i in at
    decreases |paths|
  {
    if paths == [] {
      at := [];
    } else {
      var n := |paths| - 1;
      at := ListedInOrder(paths[..n], outcomes[..n], which);
      forall i | 0 <= i < n && outcomes[i] == which ensures i in at {
        assert outcomes[..n][i] == which;
      }
      if outcomes[n] == which {
        at := at + [n];
      }
    }
  }

  predicate Distinct(paths: seq<string>) {
    forall i, j :: 0 <= i < j < |paths| ==> paths[i] != paths[j]
  }

  /** A run over distinct paths treats every file as if it were the only one. */
  lemma {:induction false} FileByFile(u: Unicode, target: int, dryRun: bool, disk: Disk, paths: seq<string>, path: string)
    requires Distinct(paths)
    ensures var disk' := DiskAfter(u, target, dryRun, disk, paths);
         && (path in disk' <==> path in disk)
         && Lookup(disk', path)
         == if path in paths then FileAfter(u, target, dryRun, Lookup(disk, path)) else Lookup(disk, path)
    decreases |paths|
  {
    if paths != [] {
      var n := |paths| - 1;
      assert Distinct(paths[..n]);
      FileByFile(u, target, dryRun, disk, paths[..n], path);
      assert paths == paths[..n] + [paths[n]];
      assert paths[n] !in paths[..n];
      hide Process;
    }
  }

  /** Where a file of such a run goes is decided by its content before the run. */
  lemma {:induction false} OutcomesByFile(u: Unicode, target: int, dryRun: bool, disk: Disk, paths: seq<string>)
    requires Distinct(paths)
    ensures forall i :: 0 <= i < |paths| ==>
              Outcomes(u, target, dryRun, disk, paths)[i] == OutcomeOf(u, target, dryRun, Lookup(disk, paths[i]))
    decreases |paths|
  {
    hide OutcomeOf, FileAfter, DiskAfter;
    if paths != [] {
      var n := |paths| - 1;
      assert Distinct(paths[..n]);
      assert paths[n] !in paths[..n];
      OutcomesByFile(u, target, dryRun, disk, paths[..n]);
      FileByFile(u, target, dryRun, disk, paths[..n], paths[n]);
    }
  }

  /** The file `path` of a run over distinct paths is in the list of its outcome and no other. */
  lemma {:induction false} ExactlyOneList(u: Unicode, target: int, dryRun: bool, disk: Disk, paths: seq<string>, path: string, which: Outcome)
    requires Distinct(paths) && path in paths
    ensures path in Listed(paths, Outcomes(u, target, dryRun, disk, paths), which)
       <==> which == OutcomeOf(u, target, dryRun, Lookup(disk, path))
  {
    hide OutcomeOf;
    OutcomesByFile(u, target, dryRun, disk, paths);
    ListedMember(paths, Outcomes(u, target, dryRun, disk, paths), which, path);
    var i :| 0 <= i < |paths| && paths[i] == path;
  }

  /** Which content goes into which list of a run over distinct paths. */
  lemma {:induction false} WhereFilesGo(u: Unicode, target: int, dryRun: bool, disk: Disk, paths: seq<string>, path: string)
    requires Distinct(paths) && path in paths
    ensures var r := ReportOf(|paths|, paths, Outcomes(u, target, dryRun, disk, paths));
         && var f := Lookup(disk, path);
         && (path in r.noCopyright <==> f.Text? && Process(u, f.content, target).NoCopyright?)
         && (path in r.skipped <==> f.Text? && Process(u, f.content, target).UpToDate?)
         && (path in r.updated <==>
               f.Text? && Process(u, f.content, target).Rewritten? && (dryRun || f.access.Writable?))
         && (path in r.errors <==>
               f.Unreadable? || (Process(u, f.content, target).Rewritten? && !dryRun && !f.access.Writable?))
  {
    ExactlyOneList(u, target, dryRun, disk, paths, path, NoCopyrightNotice);
    ExactlyOneList(u, target, dryRun, disk, paths, path, Skipped);
    ExactlyOneList(u, target, dryRun, disk, paths, path, Updated);
    ExactlyOneList(u, target, dryRun, disk, paths, path, Error);
    hide Process, Lookup, Outcomes;
  }

  /** What a file of such a run holds afterwards: the rewritten text if it needed
      an update and could be written, what the failed write left if it could not,
      and what it held before in every other case. */
  lemma {:induction false} WhatFilesHold(u: Unicode, target: int, dryRun: bool, disk: Disk, paths: seq<string>, path: string)
    requires Distinct(paths) && path in paths && Lookup(disk, path).Text?
    ensures var f, g := Lookup(disk, path), Lookup(DiskAfter(u, target, dryRun, disk, paths), path);
         && g.Text? && g.access == f.access
         && g.content == if dryRun || !Process(u, f.content, target).Rewritten? then f.content
                         else if f.access.Writable? then Process(u, f.content, target).text
                         else f.access.left
  {
    FileByFile(u, target, dryRun, disk, paths, path);
    hide Process, DiskAfter, Lookup;
  }

  // ----- dry runs -----

  /** A file the script wants to change but cannot write. */
  predicate FailsToUpdate(u: Unicode, target: int, file: File) {
    file.Text? && Process(u, file.content, target).Rewritten? && !file.access.Writable?
  }

  /** A dry run changes no file, whatever it is run over. */
  lemma {:induction false} DryRunChangesNothing(u: Unicode, target: int, disk: Disk, paths: seq<string>)
    ensures DiskAfter(u, target, true, disk, paths) == disk
    decreases |paths|
  {
    hide Process;
    if paths != [] {
      DryRunChangesNothing(u, target, disk, paths[..|paths| - 1]);
    }
  }

  /** The dry run predicts the report of the real run exactly when every file
      that needs an update can be written. */
  lemma {:induction false} DryRunPredicts(u: Unicode, target: int, disk: Disk, paths: seq<string>)
    requires Distinct(paths)
    ensures ReportOf(|paths|, paths, Outcomes(u, target, true, disk, paths))
         == ReportOf(|paths|, paths, Outcomes(u, target, false, disk, paths))
       <==> forall p :: p in paths ==> !FailsToUpdate(u, target, Lookup(disk, p))
  {
    hide Process;
    OutcomesByFile(u, target, true, disk, paths);
    OutcomesByFile(u, target, false, disk, paths);
    var dry, wet := Outcomes(u, target, true, disk, paths), Outcomes(u, target, false, disk, paths);
    if forall p :: p in paths ==> !FailsToUpdate(u, target, Lookup(disk, p)) {
      assert dry == wet;
    } else {
      var p :| p in paths && FailsToUpdate(u, target, Lookup(disk, p));
      ExactlyOneList(u, target, true, disk, paths, p, Updated);
      ExactlyOneList(u, target, false, disk, paths, p, Updated);
    }
  }

  // ----- running twice -----

  /** A second run over the same distinct files: a file updated by the first run
      is skipped unless something before its token matches, in which case it is
      updated again; every other readable file that was not left half-written
      keeps its list. */
  lemma {:induction false} SecondSweep(u: Unicode, target: int, disk: Disk, paths: seq<string>, path: string)
    requires 1000 <= target <= 9999
    requires Distinct(paths) && path in paths
    ensures var file := Lookup(disk, path);
         && var again := Outcomes(u, target, false, DiskAfter(u, target, false, disk, paths), paths);
         && (path in Listed(paths, Outcomes(u, target, false, disk, paths), Updated) ==>
               file.Text? && path in Listed(paths, again, if Unsettled(u, file.content) then Updated else Skipped))
         && (!FailsToUpdate(u, target, file) && path !in Listed(paths, Outcomes(u, target, false, disk, paths), Updated) ==>
               path in Listed(paths, again, OutcomeOf(u, target, false, file)))
  {
    hide Process, Unsettled;
    var disk' := DiskAfter(u, target, false, disk, paths);
    var file := Lookup(disk, path);
    FileByFile(u, target, false, disk, paths, path);
    ExactlyOneList(u, target, false, disk, paths, path, Updated);
    ExactlyOneList(u, target, false, disk', paths, path, OutcomeOf(u, target, false, Lookup(disk', path)));
    assert Lookup(disk', path) == FileAfter(u, target, false, file);
    if file.Text? && Process(u, file.content, target).Rewritten? {
      SecondRunFourDigits(u, file.content, target);
    }
  }
}
