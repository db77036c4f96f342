/**
 * The core and theme events of runs whose connection comes and goes (SystemEventReporter.php), beside the plugin
 * events of such runs in VersionLog.
 */
module VersionRuns {
  import opened Prelude
  import opened SystemEvents
  import opened VersionLog

  // ---------- The core version ----------

  /** While connected the step is told as a core update. */
  predicate TellsCore(store: Store, step: Step) {
    step.UpdateCore? && step.release != "" && CoreBefore(store) != Some(step.release)
  }

  /** The core version the log ends at: that of the last update told, or that at the start. */
  function ToldCore(store: Store, run: seq<Flagged>): Version
    decreases |run|
  {
    if run == [] then CoreBefore(store)
    else
      var before, last := run[..|run| - 1], run[|run| - 1];
      if last.connected && TellsCore(FinalOf(store, before), last.step) then Some(last.step.release)
      else ToldCore(store, before)
  }

  /** Whenever a core update is told, the version stored before it is the one the log ended at. */
  predicate NoCoreGap(store: Store, run: seq<Flagged>)
    decreases |run|
  {
    run == [] ||
    var before, last := run[..|run| - 1], run[|run| - 1];
    && NoCoreGap(store, before)
    && (last.connected && TellsCore(FinalOf(store, before), last.step) ==>
          CoreBefore(FinalOf(store, before)) == ToldCore(store, before))
  }

  lemma {:induction false} ChainsSnoc(events: seq<Event>, event: Event, from: Version, to: Version)
    ensures Chains(events + [event], from, to)
       <==> Chains(events, from, event.oldValue) && event.newValue != event.oldValue && event.newValue == to
    decreases |events|
  {
    var all := events + [event];
    if events == [] {
      assert all[0] == event && all[1..] == [];
    } else {
      assert all[0] == events[0] && all[1..] == events[1..] + [event];
      ChainsSnoc(events[1..], event, events[0].newValue, to);
    }
  }

  lemma CoreOfStep(store: Store, step: Step)
    requires store.core.Some?
    ensures CoreLog(Raised(store, step))
         == if TellsCore(store, step) then [Event(CoreUpdated, "", CoreBefore(store), Some(step.release))] else []
  {
    if TellsCore(store, step) {
      OneChange(Event(CoreUpdated, "", CoreBefore(store), Some(step.release)));
    } else if !step.UpdateCore? {
      OtherStepChains(store, step);
    } else {
      assert Raised(store, step) == [];
    }
  }

  lemma {:induction false} RunStaysCored(store: Store, run: seq<Flagged>)
    requires store.core.Some?
    ensures FinalOf(store, run).core.Some?
    decreases |run|
  {
    if run != [] {
      RunStaysCored(store, run[..|run| - 1]);
    }
  }

  /** The core events of a run form a chain to a version exactly when no gap opens and the log ends there. */
  lemma {:induction false} CoreRunChainsTo(store: Store, run: seq<Flagged>, to: Version)
    requires store.core.Some?
    ensures Chains(CoreLog(LogOf(store, run)), CoreBefore(store), to)
       <==> NoCoreGap(store, run) && ToldCore(store, run) == to
    decreases |run|
  {
    if run != [] {
      var before, last := run[..|run| - 1], run[|run| - 1];
      var middle := FinalOf(store, before);
      RunStaysCored(store, before);
      CoreOfStep(middle, last.step);
      FilteredConcat(LogOf(store, before), EventsOf(middle, last.connected, last.step), IsCore);
      if last.connected && TellsCore(middle, last.step) {
        CoreRunChainsTo(store, before, CoreBefore(middle));
        ChainsSnoc(CoreLog(LogOf(store, before)),
                   Event(CoreUpdated, "", CoreBefore(middle), Some(last.step.release)), CoreBefore(store), to);
      } else {
        CoreRunChainsTo(store, before, to);
        assert CoreLog(LogOf(store, before)) + [] == CoreLog(LogOf(store, before));
      }
    }
  }

  /** However the connection comes and goes, the core events form one chain from the version at the start to the
      stored one exactly when the stored version is the one last told whenever an update is told and at the end. */
  lemma CoreRunChains(store: Store, run: seq<Flagged>)
    requires store.core.Some?
    ensures Chains(CoreLog(LogOf(store, run)), CoreBefore(store), CoreBefore(FinalOf(store, run)))
       <==> NoCoreGap(store, run) && ToldCore(store, run) == CoreBefore(FinalOf(store, run))
  {
    CoreRunChainsTo(store, run, CoreBefore(FinalOf(store, run)));
  }

  // ---------- Themes ----------

  /** While connected the step tells a new version of the theme: an update to another version than the stored. */
  predicate TellsTheme(store: Store, step: Step, theme: string) {
    && step.UpgradeThemes? && theme in step.names && !step.install
    && LastKnown(Known(store.themes), theme) != step.read(theme)
  }

  /** The version the log ends at for a theme. */
  function ToldTheme(store: Store, run: seq<Flagged>, theme: string): Option<Version>
    decreases |run|
  {
    if run == [] then At(Known(store.themes), theme)
    else
      var before, last := run[..|run| - 1], run[|run| - 1];
      if last.connected && TellsTheme(FinalOf(store, before), last.step, theme) then Some(last.step.read(theme))
      else ToldTheme(store, before, theme)
  }

  lemma {:induction false} ReplayThemesConcat(versions: Versions, a: seq<Event>, b: seq<Event>)
    ensures ReplayThemes(versions, a + b) == ReplayThemes(ReplayThemes(versions, a), b)
  {
    if b == [] {
      assert a + b == a;
    } else {
      ReplayThemesConcat(versions, a, b[..|b| - 1]);
      assert (a + b)[..|a + b| - 1] == a + b[..|b| - 1];
    }
  }

  lemma {:induction false} OtherEventsTellNoTheme(versions: Versions, events: seq<Event>)
    requires forall n :: 0 <= n < |events| ==> events[n].kind != ThemeUpdated
    ensures ReplayThemes(versions, events) == versions
  {
    if events != [] {
      OtherEventsTellNoTheme(versions, events[..|events| - 1]);
    }
  }

  lemma {:induction false} PluginsEventsTellNoTheme(option: Option<Versions>, names: seq<string>, install: bool,
                                                    read: string -> Version)
    ensures forall event :: event in PluginsEvents(option, names, install, read) ==> event.kind != ThemeUpdated
    decreases |names|
  {
    if names != [] {
      PluginsEventsTellNoTheme(option, names[..|names| - 1], install, read);
    }
  }

  lemma {:induction false} ThemesAfterAt(option: Option<Versions>, names: seq<string>, read: string -> Version,
                                         theme: string)
    ensures At(Known(ThemesAfter(option, names, read)), theme)
         == if theme in names then Some(read(theme)) else At(Known(option), theme)
    decreases |names|
  {
    if names != [] {
      var before, last := names[..|names| - 1], names[|names| - 1];
      assert names == before + [last];
      ThemesAfterAt(option, before, read, theme);
    }
  }

  lemma ThemeEventsAt(told: Versions, versions: Versions, name: string, install: bool, version: Version, theme: string)
    ensures At(ReplayThemes(told, ThemeEvents(versions, name, install, version)), theme)
         == if theme == name && !install && LastKnown(versions, name) != version then Some(version) else At(told, theme)
  {
    var events := ThemeEvents(versions, name, install, version);
    if events != [] {
      assert events[..0] == [];
    }
  }

  lemma {:induction false} ThemesTell(told: Versions, option: Option<Versions>, names: seq<string>, install: bool,
                                      read: string -> Version, theme: string)
    ensures At(ReplayThemes(told, ThemesEvents(option, names, install, read)), theme)
         == if theme in names && !install && LastKnown(Known(option), theme) != read(theme) then Some(read(theme))
            else At(told, theme)
    decreases |names|
  {
    if names != [] {
      var before, last := names[..|names| - 1], names[|names| - 1];
      assert names == before + [last];
      ThemesTell(told, option, before, install, read, theme);
      ThemesAfterAt(option, before, read, last);
      var versions, earlier := Known(ThemesAfter(option, before, read)), ThemesEvents(option, before, install, read);
      ReplayThemesConcat(told, earlier, ThemeEvents(versions, last, install, read(last)));
      ThemeEventsAt(ReplayThemes(told, earlier), versions, last, install, read(last), theme);
    }
  }

  lemma ThemeToldAt(told: Versions, store: Store, step: Step, theme: string)
    ensures At(ReplayThemes(told, Raised(store, step)), theme)
         == if TellsTheme(store, step, theme) then Some(step.read(theme)) else At(told, theme)
  {
    match step
    case UpgradeThemes(names, install, read) => ThemesTell(told, store.themes, names, install, read, theme);
    case UpgradePlugins(names, install, read) =>
      PluginsEventsTellNoTheme(store.plugins, names, install, read);
      OtherEventsTellNoTheme(told, Raised(store, step));
    case _ => OtherEventsTellNoTheme(told, Raised(store, step));
  }

  lemma {:induction false} ThemeToldIsReplayed(store: Store, run: seq<Flagged>, theme: string)
    ensures At(ReplayThemes(Known(store.themes), LogOf(store, run)), theme) == ToldTheme(store, run, theme)
    decreases |run|
  {
    if run != [] {
      var before, last := run[..|run| - 1], run[|run| - 1];
      var middle, told := FinalOf(store, before), ReplayThemes(Known(store.themes), LogOf(store, before));
      ThemeToldIsReplayed(store, before, theme);
      ReplayThemesConcat(Known(store.themes), LogOf(store, before), EventsOf(middle, last.connected, last.step));
      if last.connected {
        ThemeToldAt(told, middle, last.step, theme);
      }
    }
  }

  /** However the connection comes and goes, the theme events replay to the stored versions exactly when every
      theme is stored with the version its last told update gave it: an installed theme, and an update while
      disconnected, must have been followed by one that was told, or have left the version told last. */
  lemma ThemeRunReplays(store: Store, run: seq<Flagged>)
    ensures ReplayThemes(Known(store.themes), LogOf(store, run)) == Known(FinalOf(store, run).themes)
       <==> forall theme :: ToldTheme(store, run, theme) == At(Known(FinalOf(store, run).themes), theme)
  {
    var told := ReplayThemes(Known(store.themes), LogOf(store, run));
    SameEntries(told, Known(FinalOf(store, run).themes));
    forall theme ensures At(told, theme) == ToldTheme(store, run, theme) {
      ThemeToldIsReplayed(store, run, theme);
    }
  }
}
