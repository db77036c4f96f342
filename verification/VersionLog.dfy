/** When the queued events replay to the stored versions (SystemEventReporter.php). */
module VersionLog {
  import opened Prelude
  import opened SystemEvents

  // ---------- Replaying plugin events ----------

  /** What one event says about the plugin versions. */
  function Applied(versions: Versions, event: Event): Versions {
    match event.kind
    case PluginActivated => versions[event.subject := event.newValue]
    case PluginInstalled => versions[event.subject := event.newValue]
    case PluginUpdated => versions[event.subject := event.newValue]
    case PluginDeleted => Without(versions, event.subject)
    case _ => versions
  }

  function Replay(versions: Versions, events: seq<Event>): Versions {
    if events == [] then versions else Applied(Replay(versions, events[..|events| - 1]), events[|events| - 1])
  }

  lemma {:induction false} ReplayConcat(versions: Versions, a: seq<Event>, b: seq<Event>)
    ensures Replay(versions, a + b) == Replay(Replay(versions, a), b)
  {
    if b == [] {
      assert a + b == a;
    } else {
      ReplayConcat(versions, a, b[..|b| - 1]);
      assert (a + b)[..|a + b| - 1] == a + b[..|b| - 1];
    }
  }

  lemma ReplayOne(versions: Versions, event: Event)
    ensures Replay(versions, [event]) == Applied(versions, event)
  {
    assert [event][..0] == [];
  }

  lemma {:induction false} UpgradesReplay(option: Option<Versions>, names: seq<string>, install: bool,
                                          read: string -> Version)
    ensures Replay(Known(option), PluginsEvents(option, names, install, read))
         == Known(PluginsAfter(option, names, install, read))
    decreases |names|
  {
    if names != [] {
      var before, last := names[..|names| - 1], names[|names| - 1];
      UpgradesReplay(option, before, install, read);
      var versions := Known(PluginsAfter(option, before, install, read));
      var more := PluginEvents(versions, last, install, read(last));
      ReplayConcat(Known(option), PluginsEvents(option, before, install, read), more);
      UpgradeReplays(versions, last, install, read(last));
    }
  }

  lemma UpgradeReplays(versions: Versions, plugin: string, install: bool, version: Version)
    ensures Replay(versions, PluginEvents(versions, plugin, install, version))
         == if !install && LastKnown(versions, plugin) == version then versions else versions[plugin := version]
  {
    var before := LastKnown(versions, plugin);
    ReplayOne(versions, Event(PluginInstalled, plugin, None, version));
    ReplayOne(versions, Event(PluginUpdated, plugin, before, version));
  }

  lemma ThemeEventChangesNoPlugin(versions: Versions, themes: Versions, theme: string, install: bool, version: Version)
    ensures Replay(versions, ThemeEvents(themes, theme, install, version)) == versions
  {
    ReplayOne(versions, Event(ThemeUpdated, theme, LastKnown(themes, theme), version));
  }

  lemma {:induction false} ThemeEventsChangeNoPlugin(option: Option<Versions>, names: seq<string>, install: bool,
                                                    read: string -> Version, versions: Versions)
    ensures Replay(versions, ThemesEvents(option, names, install, read)) == versions
    decreases |names|
  {
    if names != [] {
      var before, last := names[..|names| - 1], names[|names| - 1];
      ThemeEventsChangeNoPlugin(option, before, install, read, versions);
      var more := ThemeEvents(Known(ThemesAfter(option, before, read)), last, install, read(last));
      ReplayConcat(versions, ThemesEvents(option, before, install, read), more);
      ThemeEventChangesNoPlugin(versions, Known(ThemesAfter(option, before, read)), last, install, read(last));
    }
  }

  /** What a handler raises says exactly how it changes the stored plugin versions. */
  lemma RaisedReplays(store: Store, step: Step)
    requires store.plugins.Some?
    ensures Replay(Known(store.plugins), Raised(store, step)) == Known(After(store, true, step).plugins)
  {
    var versions := Known(store.plugins);
    match step
    case Baseline(_, _, _) =>
    case Activate(plugin, version) => ReplayOne(versions, Event(PluginActivated, plugin, None, version));
    case Deactivate(plugin, version) => ReplayOne(versions, Event(PluginDeactivated, plugin, version, None));
    case Delete(plugin, deleted) =>
      if deleted {
        ReplayOne(versions, Event(PluginDeleted, plugin, LastKnown(versions, plugin), None));
      }
    case SwitchTheme(name, oldVersion, newVersion) =>
      ReplayOne(versions, Event(ThemeActivated, name, oldVersion, newVersion));
    case UpgradePlugins(names, install, read) => UpgradesReplay(store.plugins, names, install, read);
    case UpgradeThemes(names, install, read) => ThemeEventsChangeNoPlugin(store.themes, names, install, read, versions);
    case UpdateCore(release) =>
      if Raised(store, step) != [] {
        ReplayOne(versions, Event(CoreUpdated, "", CoreBefore(store), Some(release)));
      }
  }

  // ---------- Which versions a step writes ----------

  /** What the map says about a plugin: nothing, no version, or a version. */
  function At(versions: Versions, plugin: string): Option<Version> {
    if plugin in versions then Some(versions[plugin]) else None
  }

  /** An upgrade of these plugins writes this one: an update only when its version is another one. */
  predicate Upgrades(versions: Versions, names: seq<string>, install: bool, read: string -> Version, plugin: string) {
    plugin in names && (install || LastKnown(versions, plugin) != read(plugin))
  }

  /** The step writes the version of the plugin. */
  predicate Writes(store: Store, step: Step, plugin: string) {
    match step
    case Activate(activated, _) => plugin == activated
    case Delete(removed, deleted) => deleted && plugin == removed
    case UpgradePlugins(names, install, read) => Upgrades(Known(store.plugins), names, install, read, plugin)
    case _ => false
  }

  /** The step finds stored what it would store: the activated version, a removed plugin already unknown, for
      every updated plugin the version it has, for every installed one that very entry. */
  predicate KeepsVersions(store: Store, step: Step) {
    var versions := Known(store.plugins);
    match step
    case Activate(plugin, version) => At(versions, plugin) == Some(version)
    case Delete(plugin, deleted) => !deleted || plugin !in versions
    case UpgradePlugins(names, install, read) =>
      forall name :: name in names ==>
        if install then At(versions, name) == Some(read(name)) else LastKnown(versions, name) == read(name)
    case _ => true
  }

  lemma {:induction false} UpgradedAt(option: Option<Versions>, names: seq<string>, install: bool,
                                      read: string -> Version, plugin: string)
    ensures At(Known(PluginsAfter(option, names, install, read)), plugin)
         == if Upgrades(Known(option), names, install, read, plugin) then Some(read(plugin))
             else At(Known(option), plugin)
    decreases |names|
  {
    if names != [] {
      var before, last := names[..|names| - 1], names[|names| - 1];
      assert names == before + [last];
      UpgradedAt(option, before, install, read, plugin);
      UpgradedAt(option, before, install, read, last);
    }
  }

  lemma PluginEventsAt(told: Versions, versions: Versions, name: string, install: bool, version: Version,
                       plugin: string)
    ensures At(Replay(told, PluginEvents(versions, name, install, version)), plugin)
         == if plugin == name && (install || LastKnown(versions, name) != version) then Some(version)
             else At(told, plugin)
  {
    ReplayOne(told, Event(PluginInstalled, name, None, version));
    ReplayOne(told, Event(PluginUpdated, name, LastKnown(versions, name), version));
  }

  /** Whatever was told before, the events of an upgrade tell exactly the plugins it writes. */
  lemma {:induction false} UpgradesTell(told: Versions, option: Option<Versions>, names: seq<string>, install: bool,
                                        read: string -> Version, plugin: string)
    ensures At(Replay(told, PluginsEvents(option, names, install, read)), plugin)
         == if Upgrades(Known(option), names, install, read, plugin) then Some(read(plugin)) else At(told, plugin)
    decreases |names|
  {
    if names != [] {
      var before, last := names[..|names| - 1], names[|names| - 1];
      assert names == before + [last];
      UpgradesTell(told, option, before, install, read, plugin);
      UpgradedAt(option, before, install, read, last);
      var versions := Known(PluginsAfter(option, before, install, read));
      var earlier := PluginsEvents(option, before, install, read);
      ReplayConcat(told, earlier, PluginEvents(versions, last, install, read(last)));
      PluginEventsAt(Replay(told, earlier), versions, last, install, read(last), plugin);
    }
  }

  /** A step changes the stored entry of the plugins it writes only. */
  lemma StoredAt(store: Store, connected: bool, step: Step, plugin: string)
    requires store.plugins.Some?
    ensures !Writes(store, step, plugin)
            ==> At(Known(After(store, connected, step).plugins), plugin) == At(Known(store.plugins), plugin)
  {
    if step.UpgradePlugins? {
      UpgradedAt(store.plugins, step.names, step.install, step.read, plugin);
    }
  }

  lemma ToldByOne(told: Versions, event: Event, plugin: string)
    ensures At(Replay(told, [event]), plugin) == At(Applied(told, event), plugin)
  {
    ReplayOne(told, event);
  }

  /** Its events tell, to a log that may say anything else, the new entry of the plugins it writes only. */
  lemma ToldAt(told: Versions, store: Store, step: Step, plugin: string)
    requires store.plugins.Some?
    ensures At(Replay(told, Raised(store, step)), plugin)
         == if Writes(store, step, plugin) then At(Known(After(store, true, step).plugins), plugin)
             else At(told, plugin)
  {
    match step
    case Baseline(_, _, _) =>
    case Activate(name, version) => ToldByOne(told, Event(PluginActivated, name, None, version), plugin);
    case Deactivate(name, version) => ToldByOne(told, Event(PluginDeactivated, name, version, None), plugin);
    case Delete(name, deleted) =>
      ToldByOne(told, Event(PluginDeleted, name, LastKnown(Known(store.plugins), name), None), plugin);
    case SwitchTheme(name, oldVersion, newVersion) =>
      ToldByOne(told, Event(ThemeActivated, name, oldVersion, newVersion), plugin);
    case UpgradePlugins(names, install, read) =>
      UpgradesTell(told, store.plugins, names, install, read, plugin);
      UpgradedAt(store.plugins, names, install, read, plugin);
    case UpgradeThemes(names, install, read) => ThemeEventsChangeNoPlugin(store.themes, names, install, read, told);
    case UpdateCore(release) => ToldByOne(told, Event(CoreUpdated, "", CoreBefore(store), Some(release)), plugin);
  }

  lemma SameEntries(a: Versions, b: Versions)
    ensures a == b <==> forall plugin :: At(a, plugin) == At(b, plugin)
  {
    if forall plugin :: At(a, plugin) == At(b, plugin) {
      forall plugin ensures plugin in a <==> plugin in b {
        assert At(a, plugin) == At(b, plugin);
      }
      forall plugin | plugin in a ensures a[plugin] == b[plugin] {
        assert At(a, plugin) == At(b, plugin);
      }
      assert a == b;
    }
  }

  /** The predicate on step and store says exactly when the stored versions stay. */
  lemma KeepsExactly(store: Store, connected: bool, step: Step)
    requires store.plugins.Some?
    ensures Known(After(store, connected, step).plugins) == Known(store.plugins) <==> KeepsVersions(store, step)
  {
    var before, after := Known(store.plugins), Known(After(store, connected, step).plugins);
    if step.UpgradePlugins? {
      SameEntries(before, after);
      forall plugin
        ensures At(after, plugin) == if Upgrades(before, step.names, step.install, step.read, plugin)
                                     then Some(step.read(plugin)) else At(before, plugin)
      {
        UpgradedAt(store.plugins, step.names, step.install, step.read, plugin);
      }
    } else if step.Activate? {
      assert after[step.plugin] == step.version;
    }
  }

  /** The log follows a step exactly when the site is connected or the step finds stored what it would store:
      changes made while disconnected are stored but never told. */
  lemma StepReplays(store: Store, connected: bool, step: Step)
    requires store.plugins.Some?
    ensures Replay(Known(store.plugins), EventsOf(store, connected, step))
         == Known(After(store, connected, step).plugins)
       <==> connected || KeepsVersions(store, step)
  {
    RaisedReplays(store, step);
    KeepsExactly(store, connected, step);
    assert Replay(Known(store.plugins), []) == Known(store.plugins);
  }

  // ---------- Runs ----------

  function Final(store: Store, steps: seq<Step>): Store
    decreases |steps|
  {
    if steps == [] then store else Final(After(store, true, steps[0]), steps[1..])
  }

  /** The events queued by a run during which the site stays connected. */
  function Log(store: Store, steps: seq<Step>): seq<Event>
    decreases |steps|
  {
    if steps == [] then [] else Raised(store, steps[0]) + Log(After(store, true, steps[0]), steps[1..])
  }

  lemma StaysBaselined(store: Store, step: Step)
    ensures store.plugins.Some? ==> After(store, true, step).plugins.Some?
    ensures store.core.Some? ==> After(store, true, step).core.Some?
  {
    if step.UpgradePlugins? {
      UpgradesKeepMap(store.plugins, step.names, step.install, step.read);
    }
  }

  lemma {:induction false} UpgradesKeepMap(option: Option<Versions>, names: seq<string>, install: bool,
                                           read: string -> Version)
    ensures option.Some? ==> PluginsAfter(option, names, install, read).Some?
    decreases |names|
  {
    if names != [] {
      UpgradesKeepMap(option, names[..|names| - 1], install, read);
    }
  }

  /** While connected, replaying the log from the baseline gives the stored plugin versions, whatever plugins
      are installed, activated, updated, deactivated and deleted in between. */
  lemma {:induction false} LogReplays(store: Store, steps: seq<Step>)
    requires store.plugins.Some?
    ensures Replay(Known(store.plugins), Log(store, steps)) == Known(Final(store, steps).plugins)
    decreases |steps|
  {
    if steps != [] {
      var next := After(store, true, steps[0]);
      RaisedReplays(store, steps[0]);
      StaysBaselined(store, steps[0]);
      LogReplays(next, steps[1..]);
      ReplayConcat(Known(store.plugins), Raised(store, steps[0]), Log(next, steps[1..]));
    }
  }

  // ---------- Runs with a connection that comes and goes ----------

  /** A step, and whether the site is connected while it happens. */
  datatype Flagged = Flagged(connected: bool, step: Step)

  function FinalOf(store: Store, run: seq<Flagged>): Store
    decreases |run|
  {
    if run == [] then store
    else
      var before, last := FinalOf(store, run[..|run| - 1]), run[|run| - 1];
      After(before, last.connected, last.step)
  }

  function LogOf(store: Store, run: seq<Flagged>): seq<Event>
    decreases |run|
  {
    if run == [] then []
    else
      var before, last := run[..|run| - 1], run[|run| - 1];
      LogOf(store, before) + EventsOf(FinalOf(store, before), last.connected, last.step)
  }

  /** What was stored for a plugin right after the last step that wrote it while connected, or at the start. */
  function LastTold(store: Store, run: seq<Flagged>, plugin: string): Option<Version>
    decreases |run|
  {
    if run == [] then At(Known(store.plugins), plugin)
    else
      var before, last := run[..|run| - 1], run[|run| - 1];
      if last.connected && Writes(FinalOf(store, before), last.step, plugin)
      then At(Known(FinalOf(store, run).plugins), plugin)
      else LastTold(store, before, plugin)
  }

  /** The last step that wrote the plugin, if any did, happened while connected: every change made while
      disconnected was overwritten by one that was told. */
  predicate LastWriteTold(store: Store, run: seq<Flagged>, plugin: string)
    decreases |run|
  {
    run == [] ||
    var before, last := run[..|run| - 1], run[|run| - 1];
    if Writes(FinalOf(store, before), last.step, plugin) then last.connected else LastWriteTold(store, before, plugin)
  }

  lemma {:induction false} RunStaysBaselined(store: Store, run: seq<Flagged>)
    requires store.plugins.Some?
    ensures FinalOf(store, run).plugins.Some?
    decreases |run|
  {
    if run != [] {
      var before, last := run[..|run| - 1], run[|run| - 1];
      RunStaysBaselined(store, before);
      if last.step.UpgradePlugins? {
        UpgradesKeepMap(FinalOf(store, before).plugins, last.step.names, last.step.install, last.step.read);
      }
    }
  }

  lemma {:induction false} ToldIsLastTold(store: Store, run: seq<Flagged>, plugin: string)
    requires store.plugins.Some?
    ensures At(Replay(Known(store.plugins), LogOf(store, run)), plugin) == LastTold(store, run, plugin)
    decreases |run|
  {
    if run != [] {
      var before, last := run[..|run| - 1], run[|run| - 1];
      var middle, told := FinalOf(store, before), Replay(Known(store.plugins), LogOf(store, before));
      ToldIsLastTold(store, before, plugin);
      RunStaysBaselined(store, before);
      ReplayConcat(Known(store.plugins), LogOf(store, before), EventsOf(middle, last.connected, last.step));
      if last.connected {
        ToldAt(told, middle, last.step, plugin);
      }
    }
  }

  /** However the connection comes and goes, the log replays to the stored versions exactly when every plugin
      has the version again that it had after its last change while connected. */
  lemma RunReplays(store: Store, run: seq<Flagged>)
    requires store.plugins.Some?
    ensures Replay(Known(store.plugins), LogOf(store, run)) == Known(FinalOf(store, run).plugins)
       <==> forall plugin :: LastTold(store, run, plugin) == At(Known(FinalOf(store, run).plugins), plugin)
  {
    SameEntries(Replay(Known(store.plugins), LogOf(store, run)), Known(FinalOf(store, run).plugins));
    forall plugin ensures At(Replay(Known(store.plugins), LogOf(store, run)), plugin) == LastTold(store, run, plugin) {
      ToldIsLastTold(store, run, plugin);
    }
  }

  lemma {:induction false} ToldWriteIsStored(store: Store, run: seq<Flagged>, plugin: string)
    requires store.plugins.Some? && LastWriteTold(store, run, plugin)
    ensures LastTold(store, run, plugin) == At(Known(FinalOf(store, run).plugins), plugin)
    decreases |run|
  {
    if run != [] {
      var before, last := run[..|run| - 1], run[|run| - 1];
      RunStaysBaselined(store, before);
      if !Writes(FinalOf(store, before), last.step, plugin) {
        ToldWriteIsStored(store, before, plugin);
        StoredAt(FinalOf(store, before), last.connected, last.step, plugin);
      }
    }
  }

  /** In particular when every change made while disconnected is overwritten by one made while connected. */
  lemma OverwrittenChangesReplay(store: Store, run: seq<Flagged>)
    requires store.plugins.Some? && forall plugin :: LastWriteTold(store, run, plugin)
    ensures Replay(Known(store.plugins), LogOf(store, run)) == Known(FinalOf(store, run).plugins)
  {
    RunReplays(store, run);
    forall plugin ensures LastTold(store, run, plugin) == At(Known(FinalOf(store, run).plugins), plugin) {
      ToldWriteIsStored(store, run, plugin);
    }
  }

  lemma {:induction false} DisconnectedRunIsUntold(store: Store, run: seq<Flagged>)
    requires forall n :: 0 <= n < |run| ==> !run[n].connected
    ensures LogOf(store, run) == []
    decreases |run|
  {
    if run != [] {
      DisconnectedRunIsUntold(store, run[..|run| - 1]);
    }
  }

  /** It is not needed: a change made and taken back while disconnected is never missed. */
  lemma ChangeTakenBack(store: Store, run: seq<Flagged>, plugin: string, version: Version, other: Version)
    requires store.plugins.Some? && At(Known(store.plugins), plugin) == Some(version)
    requires run == [Flagged(false, Activate(plugin, other)), Flagged(false, Activate(plugin, version))]
    ensures Replay(Known(store.plugins), LogOf(store, run)) == Known(FinalOf(store, run).plugins)
    ensures !LastWriteTold(store, run, plugin)
  {
    var versions := Known(store.plugins);
    assert run[..1][..0] == [] && run[..1][0] == run[0];
    assert FinalOf(store, run[..1]).plugins == Some(versions[plugin := other]);
    assert versions[plugin := other][plugin := version] == versions;
    DisconnectedRunIsUntold(store, run);
  }

  // ---------- The core version ----------

  predicate IsCore(event: Event) {
    event.kind == CoreUpdated
  }

  function CoreLog(events: seq<Event>): seq<Event> {
    Filtered(events, IsCore)
  }

  /** Every event starts where the one before it ended and ends elsewhere; the last one ends at `to`. */
  predicate Chains(events: seq<Event>, from: Version, to: Version)
    decreases |events|
  {
    if events == [] then from == to
    else events[0].oldValue == from && events[0].newValue != from && Chains(events[1..], events[0].newValue, to)
  }

  lemma {:induction false} ChainsConcat(a: seq<Event>, b: seq<Event>, from: Version, middle: Version, to: Version)
    requires Chains(a, from, middle) && Chains(b, middle, to)
    ensures Chains(a + b, from, to)
    decreases |a|
  {
    if a == [] {
      assert a + b == b;
    } else {
      ChainsConcat(a[1..], b, a[0].newValue, middle, to);
      assert (a + b)[1..] == a[1..] + b;
    }
  }

  lemma {:induction false} NoCoreInPlugins(option: Option<Versions>, names: seq<string>, install: bool,
                                           read: string -> Version)
    ensures CoreLog(PluginsEvents(option, names, install, read)) == []
    decreases |names|
  {
    if names != [] {
      var before, last := names[..|names| - 1], names[|names| - 1];
      NoCoreInPlugins(option, before, install, read);
      var more := PluginEvents(Known(PluginsAfter(option, before, install, read)), last, install, read(last));
      FilteredConcat(PluginsEvents(option, before, install, read), more, IsCore);
      FilteredNone(more, IsCore);
    }
  }

  lemma {:induction false} NoCoreInThemes(option: Option<Versions>, names: seq<string>, install: bool,
                                          read: string -> Version)
    ensures CoreLog(ThemesEvents(option, names, install, read)) == []
    decreases |names|
  {
    if names != [] {
      var before, last := names[..|names| - 1], names[|names| - 1];
      NoCoreInThemes(option, before, install, read);
      var more := ThemeEvents(Known(ThemesAfter(option, before, read)), last, install, read(last));
      FilteredConcat(ThemesEvents(option, before, install, read), more, IsCore);
      FilteredNone(more, IsCore);
    }
  }

  lemma NoChange(events: seq<Event>, version: Version)
    requires events == []
    ensures Chains(events, version, version)
  {
  }

  lemma OneLink(events: seq<Event>)
    requires |events| == 1 && events[0].newValue != events[0].oldValue
    ensures Chains(events, events[0].oldValue, events[0].newValue)
  {
    NoChange(events[1..], events[0].newValue);
  }

  lemma OneChange(event: Event)
    requires IsCore(event) && event.newValue != event.oldValue
    ensures CoreLog([event]) == [event] && Chains([event], event.oldValue, event.newValue)
  {
    FilteredAppend([], event, IsCore);
    assert [] + [event] == [event];
    OneLink([event]);
  }

  lemma CoreStep(store: Store, release: string, events: seq<Event>, before: Version, after: Version)
    requires store.core.Some? && before == CoreBefore(store)
    requires events == Raised(store, UpdateCore(release))
    requires after == CoreBefore(After(store, true, UpdateCore(release)))
    ensures if release == "" || before == Some(release) then events == [] && after == before
            else events == [Event(CoreUpdated, "", before, Some(release))] && after == Some(release)
  {
  }

  lemma ChangeChains(events: seq<Event>, before: Version, after: Version)
    requires events == [] ==> before == after
    requires events != [] ==> before != after && events == [Event(CoreUpdated, "", before, after)]
    ensures Chains(CoreLog(events), before, after)
  {
    if events == [] {
      NoChange(CoreLog(events), before);
    } else {
      OneChange(events[0]);
    }
  }

  lemma CoreStepChains(store: Store, release: string)
    requires store.core.Some?
    ensures var step := UpdateCore(release);
            Chains(CoreLog(Raised(store, step)), CoreBefore(store), CoreBefore(After(store, true, step)))
  {
    var step := UpdateCore(release);
    var events, before, after := Raised(store, step), CoreBefore(store), CoreBefore(After(store, true, step));
    CoreStep(store, release, events, before, after);
    ChangeChains(events, before, after);
  }

  lemma OtherStepChains(store: Store, step: Step)
    requires store.core.Some? && !step.UpdateCore?
    ensures CoreLog(Raised(store, step)) == [] && CoreBefore(After(store, true, step)) == CoreBefore(store)
  {
    match step
    case UpgradePlugins(names, install, read) => NoCoreInPlugins(store.plugins, names, install, read);
    case UpgradeThemes(names, install, read) => NoCoreInThemes(store.themes, names, install, read);
    case _ => FilteredNone(Raised(store, step), IsCore);
  }

  lemma StepChains(store: Store, step: Step)
    requires store.core.Some?
    ensures Chains(CoreLog(Raised(store, step)), CoreBefore(store), CoreBefore(After(store, true, step)))
  {
    if step.UpdateCore? {
      CoreStepChains(store, step.release);
    } else {
      OtherStepChains(store, step);
      NoChange(CoreLog(Raised(store, step)), CoreBefore(store));
    }
  }

  /** While connected the core events form one chain from the baseline to the stored version, each to a
      version other than the one before, although both core hooks may report the same update. */
  lemma {:induction false} CoreEventsChain(store: Store, steps: seq<Step>)
    requires store.core.Some?
    ensures Chains(CoreLog(Log(store, steps)), CoreBefore(store), CoreBefore(Final(store, steps)))
    decreases |steps|
  {
    if steps != [] {
      var next := After(store, true, steps[0]);
      StepChains(store, steps[0]);
      StaysBaselined(store, steps[0]);
      CoreEventsChain(next, steps[1..]);
      FilteredConcat(Raised(store, steps[0]), Log(next, steps[1..]), IsCore);
      ChainsConcat(CoreLog(Raised(store, steps[0])), CoreLog(Log(next, steps[1..])), CoreBefore(store),
                   CoreBefore(next), CoreBefore(Final(next, steps[1..])));
    }
  }

  // ---------- Themes ----------

  function AppliedTheme(versions: Versions, event: Event): Versions {
    if event.kind == ThemeUpdated then versions[event.subject := event.newValue] else versions
  }

  function ReplayThemes(versions: Versions, events: seq<Event>): Versions {
    if events == [] then versions
        else AppliedTheme(ReplayThemes(versions, events[..|events| - 1]), events[|events| - 1])
  }

  /** A theme change is told exactly when it is an update to another version, so the theme log replays to the
      stored versions exactly then or when the version was stored already: an installed theme goes untold. */
  lemma ThemeChangeReplays(versions: Versions, theme: string, install: bool, version: Version)
    ensures ReplayThemes(versions, ThemeEvents(versions, theme, install, version)) == versions[theme := version]
       <==> (!install && LastKnown(versions, theme) != version) || (theme in versions && versions[theme] == version)
  {
    var events := ThemeEvents(versions, theme, install, version);
    if events != [] {
      assert events[..0] == [];
    } else if theme in versions && versions[theme] == version {
      assert versions[theme := version] == versions;
    } else {
      assert versions[theme := version][theme] == version;
    }
  }
}
