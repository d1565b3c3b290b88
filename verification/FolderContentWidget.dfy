/** The preview widget: two background tasks driven by repeated loads. */
module FolderContentWidget {
  import opened Text
  import opened SizeFormat
  import opened FolderEntries

  // ----- URLs -----

  /** What the code asks of a QUrl; `rest` is everything else two URLs may differ in. */
  datatype Url = Url(isValid: bool, isLocalFile: bool, localFile: string, rest: string)

  predicate Accepts(url: Url) { url.isValid && url.isLocalFile }

  /** The part of a path after its last slash. */
  function FileName(path: string): string {
    if path == [] || path[|path| - 1] == '/' then []
    else FileName(path[..|path| - 1]) + [path[|path| - 1]]
  }

  function DisplayName(path: string): string {
    if FileName(path) == [] then path else FileName(path)
  }

  /** Every path is a part that is empty or ends with a slash, and the file name,
      which has no slash. */
  lemma {:induction false} FileNameSplits(path: string) returns (dir: string)
    ensures path == dir + FileName(path)
    ensures '/' !in FileName(path) && (dir == "" || dir[|dir| - 1] == '/')
  {
    if path == [] || path[|path| - 1] == '/' {
      dir := path;
    } else {
      var short := path[..|path| - 1];
      dir := FileNameSplits(short);
      assert path == short + [path[|path| - 1]];
      assert path == dir + FileName(short) + [path[|path| - 1]];
      assert dir + (FileName(short) + [path[|path| - 1]]) == dir + FileName(short) + [path[|path| - 1]];
    }
  }

  /** And that determines it. */
  lemma {:induction false} FileNameIs(dir: string, name: string)
    requires '/' !in name && (dir == "" || dir[|dir| - 1] == '/')
    ensures FileName(dir + name) == name
  {
    if name == [] {
      assert dir + name == dir;
    } else {
      var n := |name| - 1;
      assert (dir + name)[..|dir + name| - 1] == dir + name[..n];
      assert name[n] in name;
      FileNameIs(dir, name[..n]);
    }
  }

  /** What is shown for a path: its last part, or all of it if it ends with a slash. */
  lemma {:induction false} DisplayNameIs(dir: string, name: string)
    requires '/' !in name && (dir == "" || dir[|dir| - 1] == '/')
    ensures DisplayName(dir + name) == if name == "" then dir + name else name
  {
    FileNameIs(dir, name);
    hide FileName;
  }

  // ----- the two background tasks -----

  /** Ready: the scan is finished but its signal has not been delivered. */
  datatype ScanTask = Idle | Computing(result: ScanResult) | Ready(result: ScanResult)

  datatype DuResult = DuResult(exitCode: int, output: string)

  datatype DuProcess = NotRunning | Running(ends: DuResult)

  datatype DuStart = Starts(ends: DuResult) | FailsToStart

  /** What becomes of a running `du` that a load kills: it ends while the load
      waits for it, or it outlives the wait. Either way it ends with this result. */
  datatype Killed = Stops(result: DuResult) | Lingers(result: DuResult)

  /** Everything the outside world contributes to one load. */
  datatype Job = Job(listing: seq<Entry>, du: DuStart, killed: Killed)

  function Badge(r: DuResult): string { DuText(r.exitCode, r.output) }

  // ----- the widget as a value -----

  datatype View = View(url: Option<Url>, name: string, path: string,
                       fileBadge: string, dirBadge: string, sizeBadge: string,
                       loading: bool, listVisible: bool, rows: seq<Row>,
                       scan: ScanTask, du: DuProcess)

  const NEW_VIEW := View(None, "", "", "—", "—", "—", false, false, [], Idle, NotRunning)

  function StartDu(v: View, du: DuStart): View {
    match du
    case Starts(ends) => v.(du := Running(ends))
    case FailsToStart => v.(du := NotRunning)
  }

  function RestartedDu(v: View, job: Job): View {
    match v.du
    case NotRunning => StartDu(v, job.du)
    case Running(_) =>
      match job.killed
      case Stops(r) => StartDu(v.(sizeBadge := Badge(r)), job.du)
      case Lingers(r) => v.(du := Running(r))
  }

  function Load(v: View, url: Url, job: Job): View {
    if !Accepts(url) then v
    else
      var p := url.localFile;
      RestartedDu(View(Some(url), DisplayName(p), p, "…", "…", "…", true, false, [],
                       Computing(ScanOf(job.listing)), v.du), job)
  }

  function ScanComputed(v: View): View {
    if v.scan.Computing? then v.(scan := Ready(v.scan.result)) else v
  }

  function ScanDelivered(maps: CaseMaps, v: View): View {
    if v.scan.Ready? then
      var r := v.scan.result;
      v.(fileBadge := Numeral(r.fileCount), dirBadge := Numeral(r.dirCount), rows := RowsOf(maps, r.entries),
         loading := false, listVisible := true, scan := Idle)
    else v
  }

  function DuExits(v: View): View {
    if v.du.Running? then v.(sizeBadge := Badge(v.du.ends), du := NotRunning) else v
  }

  // ----- the widget as an object -----

  class Widget {
    const maps: CaseMaps
    var currentUrl: Option<Url>
    var nameLabel: string
    var pathLabel: string
    var fileBadge: string
    var dirBadge: string
    var sizeBadge: string
    var loadingVisible: bool
    var listVisible: bool
    var listRows: seq<Row>
    var watcher: ScanTask
    var watcherCanceled: bool
    var duProcess: DuProcess

    /** The watched future is never a cancelled one: the load that cancels a scan
        puts the next future in its place before any signal can be delivered. So
        the early return of `OnScanFinished` is never taken. */
    ghost predicate Valid()
      reads this
    {
      !watcherCanceled
    }

    ghost function Shows(): View
      reads this
    {
      View(currentUrl, nameLabel, pathLabel, fileBadge, dirBadge, sizeBadge,
           loadingVisible, listVisible, listRows, watcher, duProcess)
    }

    constructor (maps: CaseMaps)
      ensures Valid() && Shows() == NEW_VIEW && this.maps == maps
    {
      this.maps := maps;
      currentUrl, nameLabel, pathLabel := None, "", "";
      fileBadge, dirBadge, sizeBadge := "—", "—", "—";
      loadingVisible, listVisible, listRows := false, false, [];
      watcher, watcherCanceled, duProcess := Idle, false, NotRunning;
    }

    method LoadFolder(url: Url, job: Job)
      requires Valid()
      modifies this
      ensures Valid() && Shows() == Load(old(Shows()), url, job)
    {
      if !url.isValid || !url.isLocalFile {
        return;
      }
      hide RowsOf, ScanOf, DuText, FileName, RestartedDu;
      ResetDisplay(url);
      if watcher.Computing? {
        watcherCanceled := true;
      }
      var result := Scan(job.listing);
      watcher, watcherCanceled := Computing(result), false;

      RestartDu(job);
    }

    /** The first part of `loadFolder`: header, badges, and the cleared list. */
    method ResetDisplay(url: Url)
      modifies this
      ensures watcher == old(watcher) && watcherCanceled == old(watcherCanceled) && duProcess == old(duProcess)
      ensures Shows() == View(Some(url), DisplayName(url.localFile), url.localFile, "…", "…", "…", true, false, [],
                              old(watcher), old(duProcess))
    {
      var path := url.localFile;
      currentUrl := Some(url);
      nameLabel := if FileName(path) == [] then path else FileName(path);
      pathLabel := path;
      fileBadge, dirBadge, sizeBadge := "…", "…", "…";
      loadingVisible, listVisible := true, false;
      listRows := [];
    }

    /** The last part of `loadFolder`: kill a running `du`, then start the new one. */
    method RestartDu(job: Job)
      requires Valid()
      modifies `duProcess, `sizeBadge
      ensures Shows() == RestartedDu(old(Shows()), job)
    {
      hide DuText;
      if duProcess.Running? {
        match job.killed {
          case Stops(r) =>
            duProcess := NotRunning;
            OnDuFinished(r.exitCode, r.output);
          case Lingers(r) =>
            duProcess := Running(r);
        }
      }
      // A process that is still running cannot be started again.
      if duProcess.NotRunning? {
        match job.du {
          case Starts(ends) => duProcess := Running(ends);
          case FailsToStart =>
        }
      }
    }

    /** The background scan ends; its signal is now pending. */
    method FinishScan()
      requires Valid()
      modifies `watcher
      ensures Valid() && Shows() == ScanComputed(old(Shows()))
    {
      if watcher.Computing? {
        watcher := Ready(watcher.result);
      }
    }

    method OnScanFinished()
      requires Valid() && watcher.Ready?
      modifies this
      ensures Valid() && Shows() == ScanDelivered(maps, old(Shows()))
    {
      var result := watcher.result;
      watcher := Idle;
      if watcherCanceled {
        return;
      }
      fileBadge := Numeral(result.fileCount);
      dirBadge := Numeral(result.dirCount);
      listRows := RowsOf(maps, result.entries);
      loadingVisible := false;
      listVisible := true;
    }

    method OnDuFinished(exitCode: int, output: string)
      modifies `sizeBadge
      ensures sizeBadge == DuText(exitCode, output)
    {
      if exitCode != 0 {
        sizeBadge := "N/A";
        return;
      }
      var parts := Split(TrimRight(TrimLeft(output)), '\t');
      var bytes := ParseInt64(parts[0]);
      if bytes.None? || bytes.value < 0 {
        sizeBadge := "N/A";
        return;
      }
      sizeBadge := FormatSize(bytes.value);
    }

    /** `du` ends on its own: its finished signal runs the slot. */
    method FinishDu()
      requires Valid() && duProcess.Running?
      modifies this
      ensures Valid() && Shows() == DuExits(old(Shows()))
    {
      var r := duProcess.ends;
      duProcess := NotRunning;
      OnDuFinished(r.exitCode, r.output);
    }
  }

  // ----- runs -----

  /** What can happen to a widget; an event that cannot occur changes nothing. */
  datatype Event = Loads(url: Url, job: Job) | ScanEnds | ScanSignal | DuEnds

  function Step(maps: CaseMaps, v: View, e: Event): View {
    match e
    case Loads(url, job) => Load(v, url, job)
    case ScanEnds => ScanComputed(v)
    case ScanSignal => ScanDelivered(maps, v)
    case DuEnds => DuExits(v)
  }

  function Run(maps: CaseMaps, events: seq<Event>): View {
    if events == [] then NEW_VIEW
    else Step(maps, Run(maps, events[..|events| - 1]), events[|events| - 1])
  }

  /** The index of the last load that was accepted. */
  function LastLoad(events: seq<Event>): (r: Option<nat>)
    ensures r.Some? ==> r.value < |events| && events[r.value].Loads? && Accepts(events[r.value].url)
  {
    if events == [] then None
    else
      var n := |events| - 1;
      if events[n].Loads? && Accepts(events[n].url) then Some(n) else LastLoad(events[..n])
  }

  // ----- what a run shows -----

  /** The `du` a load leaves running, given the state it found. */
  function DuAfterLoad(before: View, job: Job): DuProcess {
    if before.du.Running? && job.killed.Lingers? then Running(job.killed.result)
    else match job.du case Starts(ends) => Running(ends) case FailsToStart => NotRunning
  }

  /** The size badge right after a load. */
  function SizeAfterLoad(before: View, job: Job): string {
    if before.du.Running? && job.killed.Stops? then Badge(job.killed.result) else "…"
  }

  /** What the widget shows after its last load, as its tasks progress. */
  function Expected(maps: CaseMaps, before: View, url: Url, job: Job, scan: ScanTask, du: DuProcess): View {
    var r := ScanOf(job.listing);
    var done := scan.Idle?;
    var started := DuAfterLoad(before, job);
    View(Some(url), DisplayName(url.localFile), url.localFile,
         if done then Numeral(r.fileCount) else "…",
         if done then Numeral(r.dirCount) else "…",
         if du.NotRunning? && started.Running? then Badge(started.ends) else SizeAfterLoad(before, job),
         !done, done, if done then RowsOf(maps, r.entries) else [],
         scan, du)
  }

  /** `v` shows the load of `url` with its tasks somewhere on their way. */
  predicate Follows(maps: CaseMaps, before: View, url: Url, job: Job, v: View) {
    && v == Expected(maps, before, url, job, v.scan, v.du)
    && (v.scan.Idle? || v.scan.result == ScanOf(job.listing))
    && (v.du.NotRunning? || v.du == DuAfterLoad(before, job))
  }

  lemma {:induction false} LoadFollows(maps: CaseMaps, before: View, url: Url, job: Job)
    requires Accepts(url)
    ensures Follows(maps, before, url, job, Load(before, url, job))
  {
    hide RowsOf, ScanOf, DisplayName, Badge, Numeral;
  }

  lemma {:induction false} TaskFollows(maps: CaseMaps, before: View, url: Url, job: Job, v: View, e: Event)
    requires Follows(maps, before, url, job, v)
    requires e.Loads? ==> !Accepts(e.url)
    ensures Follows(maps, before, url, job, Step(maps, v, e))
  {
    hide RowsOf, ScanOf, DisplayName, Badge, Numeral;
  }

  /** At every moment of every run, what is shown is determined by the last
      accepted load and by which of its two tasks have finished. */
  lemma {:induction false} EveryRun(maps: CaseMaps, events: seq<Event>)
    ensures LastLoad(events).None? ==>
              Run(maps, events) == View(None, "", "", "—", "—", "—", false, false, [], Idle, NotRunning)
    ensures LastLoad(events).Some? ==>
              var i := LastLoad(events).value;
              Follows(maps, Run(maps, events[..i]), events[i].url, events[i].job, Run(maps, events))
    decreases |events|
  {
    if events != [] {
      var n := |events| - 1;
      EveryRun(maps, events[..n]);
      if events[n].Loads? && Accepts(events[n].url) {
        hide Load, Follows;
        LoadFollows(maps, Run(maps, events[..n]), events[n].url, events[n].job);
      } else if LastLoad(events).Some? {
        var i := LastLoad(events).value;
        hide Step, Follows;
        assert events[..n][..i] == events[..i];
        TaskFollows(maps, Run(maps, events[..i]), events[i].url, events[i].job, Run(maps, events[..n]), events[n]);
      }
    }
  }

  /** A widget that loads one folder and lets both tasks finish. */
  function FreshView(maps: CaseMaps, url: Url, job: Job): View {
    DuExits(ScanDelivered(maps, ScanComputed(Load(NEW_VIEW, url, job))))
  }

  predicate Quiescent(v: View) { v.scan.Idle? && v.du.NotRunning? }

  /** Whether the last load's own `du` decides what the size badge ends up with:
      no older `du` was running; or it stopped in time and the new one started;
      or it outlived the wait, but reported the same text. */
  predicate SizeIsOwn(before: View, job: Job) {
    match before.du
    case NotRunning => true
    case Running(_) =>
      match job.killed
      case Stops(_) => job.du.Starts?
      case Lingers(r) => job.du.Starts? && Badge(r) == Badge(job.du.ends)
  }

  lemma {:induction false} BadgeIsNoPlaceholder(r: DuResult)
    ensures Badge(r) != "…"
  {
    if r.exitCode == 0 {
      match ParseInt64(Split(TrimRight(TrimLeft(r.output)), '\t')[0])
      case None =>
      case Some(n) =>
        if n >= 0 {
          SizeStartsWithDigit(n);
        }
    }
  }

  /** Once both tasks have finished, the whole widget shows what a fresh widget
      shows for the last loaded folder, whatever happened before, except that the
      size badge does so exactly when `SizeIsOwn` holds. */
  lemma {:induction false} QuiescentAgreement(maps: CaseMaps, events: seq<Event>)
    requires LastLoad(events).Some? && Quiescent(Run(maps, events))
    ensures var i := LastLoad(events).value;
         && var url, job := events[i].url, events[i].job;
         && var v, ideal := Run(maps, events), FreshView(maps, url, job);
         && v.(sizeBadge := ideal.sizeBadge) == ideal
         && (v == ideal <==> SizeIsOwn(Run(maps, events[..i]), job))
  {
    hide RowsOf, ScanOf, DisplayName, Badge, Numeral;
    var i := LastLoad(events).value;
    var before, job := Run(maps, events[..i]), events[i].job;
    EveryRun(maps, events);
    BadgeIsNoPlaceholder(job.killed.result);
  }

  /** The labels, counts and list of a finished preview, spelled out. */
  lemma {:induction false} FreshViewShowsFolder(maps: CaseMaps, url: Url, job: Job)
    requires Accepts(url)
    ensures var v, r := FreshView(maps, url, job), ScanOf(job.listing);
         && v.url == Some(url) && v.path == url.localFile && v.name == DisplayName(url.localFile)
         && v.fileBadge == Numeral(r.fileCount) && v.dirBadge == Numeral(r.dirCount)
         && r.fileCount + r.dirCount == |job.listing| == |v.rows|
         && v.listVisible && !v.loading
         && (forall k :: 0 <= k < |v.rows| ==>
               (k < r.dirCount <==> SortedEntries(maps, job.listing)[k].isDir)
               && RowShows(maps, v.rows[k], SortedEntries(maps, job.listing)[k]))
         && v.sizeBadge == match job.du case Starts(ends) => Badge(ends) case FailsToStart => "…"
  {
    hide SortedEntries, MakeItem, DisplayName, Badge, Numeral, RowShows;
    CountsMatchList(maps, job.listing);
    var v := FreshView(maps, url, job);
    forall k | 0 <= k < |v.rows| ensures RowShows(maps, v.rows[k], SortedEntries(maps, job.listing)[k]) {
      ItemShowsEntry(maps, SortedEntries(maps, job.listing)[k]);
    }
  }

  /** While a `du` started by the last load runs, the badge shows either the
      placeholder or what the load itself reported for the process it stopped. */
  lemma {:induction false} OldSizeOnlyWhileRunning(maps: CaseMaps, events: seq<Event>)
    requires LastLoad(events).Some?
    ensures var i := LastLoad(events).value;
         && var before, v := Run(maps, events[..i]), Run(maps, events);
         && var job := events[i].job;
         && (v.du.Running? ==>
               v.sizeBadge == (if before.du.Running? && job.killed.Stops? then Badge(job.killed.result) else "…"))
         && (v.du.NotRunning? && v.sizeBadge == "…" ==> job.du.FailsToStart?)
  {
    hide RowsOf, ScanOf, DisplayName, Badge, Numeral;
    var i := LastLoad(events).value;
    EveryRun(maps, events);
    var started := DuAfterLoad(Run(maps, events[..i]), events[i].job);
    if started.Running? {
      BadgeIsNoPlaceholder(started.ends);
    }
  }

  /** A `du` that outlives the wait really does leave the old folder's size
      behind: load, load again, let everything finish. */
  lemma {:induction false} LingeringDuShowsOldSize(maps: CaseMaps, first: Url, second: Url, a: Job, b: Job)
    requires Accepts(first) && Accepts(second) && a.du.Starts? && b.du.Starts?
    requires b.killed.Lingers? && Badge(b.killed.result) != Badge(b.du.ends)
    ensures var v := Run(maps, [Loads(first, a), Loads(second, b), ScanEnds, ScanSignal, DuEnds]);
         && Quiescent(v)
         && v.url == Some(second)
         && v.sizeBadge == Badge(b.killed.result)
         && v.sizeBadge != FreshView(maps, second, b).sizeBadge
  {
    hide RowsOf, ScanOf, DisplayName, Badge, Numeral;
    var es := [Loads(first, a), Loads(second, b), ScanEnds, ScanSignal, DuEnds];
    assert es[..4] == [Loads(first, a), Loads(second, b), ScanEnds, ScanSignal];
    assert es[..4][..3] == [Loads(first, a), Loads(second, b), ScanEnds];
    assert es[..4][..3][..2] == [Loads(first, a), Loads(second, b)];
    assert es[..4][..3][..2][..1] == [Loads(first, a)];
    assert Run(maps, es[..4][..3][..2][..1]) == Load(NEW_VIEW, first, a);
    assert Run(maps, es[..4][..3][..2]) == Load(Load(NEW_VIEW, first, a), second, b);
    assert Run(maps, es[..4][..3]) == ScanComputed(Run(maps, es[..4][..3][..2]));
    assert Run(maps, es[..4]) == ScanDelivered(maps, Run(maps, es[..4][..3]));
  }
}
