/** The preview object: one current URL, its title, and a lazily created widget. */
module FolderPreview {
  import opened Text
  import opened FolderEntries
  import opened FolderContentWidget

  /** A default-constructed QUrl. */
  const NO_URL := Url(false, false, "", "")

  // ----- the preview as a value -----

  /** `widget` is None when none was created or the last one was destroyed. */
  datatype Preview = Preview(url: Url, title: string, widget: Option<View>)

  const NEW_PREVIEW := Preview(NO_URL, "", None)

  predicate Previewable(url: Url, isDir: bool) { Accepts(url) && isDir }

  function SetUrl(p: Preview, url: Url, isDir: bool, job: Job): Preview {
    if !Previewable(url, isDir) || p.url == url then p
    else
      Preview(url, DisplayName(url.localFile),
              match p.widget case None => None case Some(v) => Some(Load(v, url, job)))
  }

  function WithWidget(p: Preview, job: Job): Preview {
    if p.widget.Some? then p
    else p.(widget := Some(if p.url.isValid then Load(NEW_VIEW, p.url, job) else NEW_VIEW))
  }

  // ----- the preview as an object -----

  class FolderPreviewer {
    const maps: CaseMaps
    var currentUrl: Url
    var title: string
    var widget: Widget?

    ghost predicate Valid()
      reads this, widget
    {
      && (widget != null ==> widget.Valid() && widget.maps == maps)
      && (currentUrl.isValid ==> Accepts(currentUrl))
    }

    ghost function State(): Preview
      reads this, widget
    {
      Preview(currentUrl, title, if widget == null then None else Some(widget.Shows()))
    }

    constructor (maps: CaseMaps)
      ensures Valid() && State() == NEW_PREVIEW && widget == null
    {
      this.maps := maps;
      currentUrl, title, widget := NO_URL, "", null;
    }

    method SetFileUrl(url: Url, isDir: bool, job: Job) returns (ok: bool)
      requires Valid()
      modifies this, widget
      ensures Valid() && widget == old(widget)
      ensures State() == SetUrl(old(State()), url, isDir, job)
      ensures ok == (url.isValid && url.isLocalFile && isDir)
    {
      hide Load, FileName;
      if !url.isValid || !url.isLocalFile {
        return false;
      }
      if !isDir {
        return false;
      }
      if currentUrl == url {
        return true;
      }
      currentUrl := url;
      title := FileName(url.localFile);
      if title == [] {
        title := url.localFile;
      }
      if widget != null {
        widget.LoadFolder(url, job);
      }
      return true;
    }

    method ContentWidget(job: Job) returns (w: Widget)
      requires Valid()
      modifies this
      ensures Valid() && w == widget
      ensures old(widget) != null ==> w == old(widget)
      ensures old(widget) == null ==> fresh(w)
      ensures State() == WithWidget(old(State()), job)
    {
      hide Load;
      if widget == null {
        var created := new Widget(maps);
        if currentUrl.isValid {
          created.LoadFolder(currentUrl, job);
        }
        widget := created;
      }
      return widget;
    }

    /** The widget is deleted by its parent; the guarded pointer becomes null. */
    method WidgetDestroyed()
      requires Valid()
      modifies `widget
      ensures Valid() && State() == old(State()).(widget := None)
    {
      widget := null;
    }

    method FileUrl() returns (url: Url)
      ensures url == currentUrl
    {
      return currentUrl;
    }

    method Title() returns (t: string)
      ensures t == title
    {
      return title;
    }
  }

  // ----- runs -----

  /** Task events reach the live widget, if there is one; the widget is loaded
      only through the preview. */
  datatype Action =
    | Sets(url: Url, isDir: bool, job: Job)
    | Shows(job: Job)
    | Destroys
    | ScanDone
    | ScanNotified
    | DuDone

  function TaskEvent(a: Action): Event
    requires a.ScanDone? || a.ScanNotified? || a.DuDone?
  {
    if a.ScanDone? then ScanEnds else if a.ScanNotified? then ScanSignal else DuEnds
  }

  function Act(maps: CaseMaps, p: Preview, a: Action): Preview {
    match a
    case Sets(url, isDir, job) => SetUrl(p, url, isDir, job)
    case Shows(job) => WithWidget(p, job)
    case Destroys => p.(widget := None)
    case _ =>
      match p.widget
      case None => p
      case Some(v) => p.(widget := Some(FolderContentWidget.Step(maps, v, TaskEvent(a))))
  }

  function RunActions(maps: CaseMaps, actions: seq<Action>): Preview {
    if actions == [] then NEW_PREVIEW
    else Act(maps, RunActions(maps, actions[..|actions| - 1]), actions[|actions| - 1])
  }

  /** The last accepted URL of a run. */
  function LastUrl(actions: seq<Action>): Option<Url> {
    if actions == [] then None
    else
      var a := actions[|actions| - 1];
      if a.Sets? && Previewable(a.url, a.isDir) then Some(a.url) else LastUrl(actions[..|actions| - 1])
  }

  /** What happened to the live widget since it was created. */
  function WidgetEvents(maps: CaseMaps, actions: seq<Action>): seq<Event> {
    if actions == [] then []
    else
      var before := actions[..|actions| - 1];
      var a, p, es := actions[|actions| - 1], RunActions(maps, before), WidgetEvents(maps, before);
      match a
      case Sets(url, isDir, job) =>
        if p.widget.Some? && Previewable(url, isDir) && p.url != url then es + [Loads(url, job)] else es
      case Shows(job) =>
        if p.widget.Some? then es else if p.url.isValid then [Loads(p.url, job)] else []
      case Destroys => []
      case _ => if p.widget.Some? then es + [TaskEvent(a)] else es
  }

  /** The current URL and the title are those of the last accepted URL; rejected
      URLs, widgets and their tasks leave no trace in them. */
  lemma {:induction false} UrlAndTitle(maps: CaseMaps, actions: seq<Action>)
    ensures var p := RunActions(maps, actions);
            match LastUrl(actions)
            case None => p.url == Url(false, false, "", "") && p.title == ""
            case Some(url) => p.url == url && Accepts(url) && p.title == DisplayName(url.localFile)
    decreases |actions|
  {
    if actions != [] {
      hide Load, DisplayName, Step;
      UrlAndTitle(maps, actions[..|actions| - 1]);
    }
  }

  lemma {:induction false} AppendEvent(maps: CaseMaps, es: seq<Event>, e: Event)
    ensures Run(maps, es + [e]) == Step(maps, Run(maps, es), e)
    ensures LastLoad(es + [e]) == if e.Loads? && Accepts(e.url) then Some(|es|) else LastLoad(es)
  {
    assert (es + [e])[..|es|] == es;
  }

  /** There is a widget exactly if one was asked for and none was destroyed since. */
  lemma {:induction false} WidgetLives(maps: CaseMaps, actions: seq<Action>)
    ensures RunActions(maps, actions).widget.Some?
       <==> exists i :: 0 <= i < |actions| && actions[i].Shows? && forall j :: i < j < |actions| ==> !actions[j].Destroys?
    decreases |actions|
  {
    hide Load, DisplayName, Step;
    if actions != [] {
      var n := |actions| - 1;
      var before := actions[..n];
      WidgetLives(maps, before);
      if actions[n].Shows? {
        assert RunActions(maps, actions).widget.Some?;
      } else if actions[n].Destroys? {
        assert RunActions(maps, actions).widget.None?;
      } else {
        assert RunActions(maps, actions).widget.Some? == RunActions(maps, before).widget.Some?;
        if i :| 0 <= i < n && before[i].Shows? && forall j :: i < j < n ==> !before[j].Destroys? {
          assert actions[i].Shows?;
          assert forall j :: i < j < n ==> !actions[j].Destroys? by {
            forall j | i < j < n ensures !actions[j].Destroys? { assert !before[j].Destroys?; }
          }
        }
        if i :| 0 <= i < |actions| && actions[i].Shows? && forall j :: i < j < |actions| ==> !actions[j].Destroys? {
          assert before[i].Shows?;
        }
      }
    }
  }

  /** The live widget is the one its events since creation lead to, and its last
      load is that of the current URL: there is one whenever a URL is set. */
  lemma {:induction false} LiveWidget(maps: CaseMaps, actions: seq<Action>)
    requires RunActions(maps, actions).widget.Some?
    ensures var p, es := RunActions(maps, actions), WidgetEvents(maps, actions);
         && p.widget.value == Run(maps, es)
         && match LastLoad(es)
            case None => !p.url.isValid
            case Some(i) => p.url.isValid && es[i].url == p.url
    decreases |actions|
  {
    var n := |actions| - 1;
    if n < 0 {
      assert false;
    } else {
      var before, a := actions[..n], actions[n];
      var p, es := RunActions(maps, before), WidgetEvents(maps, before);
      UrlAndTitle(maps, before);
      hide Load, Run, LastLoad, DisplayName, Step;
      if p.widget.Some? {
        LiveWidget(maps, before);
        WidgetKept(maps, p, es, a);
      } else {
        WidgetCreated(maps, p.url, a);
      }
    }
  }

  lemma {:induction false} WidgetKept(maps: CaseMaps, p: Preview, es: seq<Event>, a: Action)
    ensures a.Sets? ==>
              && Run(maps, es + [Loads(a.url, a.job)]) == Load(Run(maps, es), a.url, a.job)
              && LastLoad(es + [Loads(a.url, a.job)]) == if Accepts(a.url) then Some(|es|) else LastLoad(es)
    ensures a.ScanDone? || a.ScanNotified? || a.DuDone? ==>
              && Run(maps, es + [TaskEvent(a)]) == Step(maps, Run(maps, es), TaskEvent(a))
              && LastLoad(es + [TaskEvent(a)]) == LastLoad(es)
    ensures forall e :: LastLoad(es).Some? ==> (es + [e])[LastLoad(es).value] == es[LastLoad(es).value]
  {
    if a.Sets? {
      AppendEvent(maps, es, Loads(a.url, a.job));
    } else if a.ScanDone? || a.ScanNotified? || a.DuDone? {
      AppendEvent(maps, es, TaskEvent(a));
    }
  }

  lemma {:induction false} WidgetCreated(maps: CaseMaps, url: Url, a: Action)
    ensures a.Shows? ==> Run(maps, [Loads(url, a.job)]) == Load(NEW_VIEW, url, a.job)
    ensures a.Shows? && Accepts(url) ==> LastLoad([Loads(url, a.job)]) == Some(0)
    ensures Run(maps, []) == NEW_VIEW && LastLoad([]) == None
  {
    if a.Shows? {
      AppendEvent(maps, [], Loads(url, a.job));
      assert [] + [Loads(url, a.job)] == [Loads(url, a.job)];
    }
  }

  /** After any run, a live widget of a preview with a URL has loaded exactly that
      URL and heads it with the title; without a URL it is untouched. Once its
      tasks have finished, it shows what a fresh widget shows for that folder and
      the outcome of its last load, the size badge only if it is that load's own. */
  lemma {:induction false} PreviewAgreement(maps: CaseMaps, actions: seq<Action>)
    requires RunActions(maps, actions).widget.Some?
    ensures var p := RunActions(maps, actions);
         && var v := p.widget.value;
         && (!p.url.isValid ==> v == NEW_VIEW)
         && (p.url.isValid ==> v.url == Some(p.url) && v.path == p.url.localFile && v.name == p.title)
    ensures var p, es := RunActions(maps, actions), WidgetEvents(maps, actions);
            p.url.isValid && Quiescent(p.widget.value) ==>
              && LastLoad(es).Some?
              && var i := LastLoad(es).value;
              && var ideal := FreshView(maps, p.url, es[i].job);
              && p.widget.value.(sizeBadge := ideal.sizeBadge) == ideal
              && (p.widget.value == ideal <==> SizeIsOwn(Run(maps, es[..i]), es[i].job))
  {
    hide Load, Run, RowsOf, ScanOf, Badge, Step, FreshView, SizeIsOwn;
    UrlAndTitle(maps, actions);
    LiveWidget(maps, actions);
    var p, es := RunActions(maps, actions), WidgetEvents(maps, actions);
    EveryRun(maps, es);
    if LastLoad(es).Some? && Quiescent(p.widget.value) {
      QuiescentAgreement(maps, es);
    }
  }

  /** The title, and the header of a live widget, is the last part of the last
      accepted path, or the whole path if that ends with a slash. */
  lemma {:induction false} TitleIsLastName(maps: CaseMaps, actions: seq<Action>, url: Url, dir: string, name: string)
    requires LastUrl(actions) == Some(url) && url.localFile == dir + name
    requires '/' !in name && (dir == "" || dir[|dir| - 1] == '/')
    ensures var p, shown := RunActions(maps, actions), if name == "" then url.localFile else name;
         && p.title == shown
         && (p.widget.Some? ==> p.widget.value.name == shown)
  {
    hide DisplayName, RunActions, LastUrl;
    DisplayNameIs(dir, name);
    UrlAndTitle(maps, actions);
    if RunActions(maps, actions).widget.Some? {
      PreviewAgreement(maps, actions);
    }
  }

  /** A rejected or repeated URL changes nothing at all. */
  lemma {:induction false} RejectedUrlIsIgnored(maps: CaseMaps, actions: seq<Action>, url: Url, isDir: bool, job: Job)
    ensures RunActions(maps, actions + [Sets(url, isDir, job)]) == RunActions(maps, actions)
       <==> !url.isValid || !url.isLocalFile || !isDir || LastUrl(actions) == Some(url)
  {
    hide Load, DisplayName;
    UrlAndTitle(maps, actions);
    assert (actions + [Sets(url, isDir, job)])[..|actions|] == actions;
  }
}
