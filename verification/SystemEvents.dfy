/**
 * The version-event log (SystemEventReporter.php): stored version maps, the events queued about their
 * changes, and when the log replays to the maps.
 */
module SystemEvents {
  import opened Prelude

  type Version = Option<string>

  type Versions = map<string, Version>

  /** The three options; a version map is absent until the baseline is taken or a plugin is remembered. */
  datatype Store = Store(plugins: Option<Versions>, themes: Option<Versions>, core: Version)

  datatype Kind =
    | PluginActivated | PluginDeactivated | PluginDeleted | PluginInstalled | PluginUpdated
    | ThemeActivated | ThemeUpdated | CoreUpdated

  datatype Event = Event(kind: Kind, subject: string, oldValue: Version, newValue: Version)

  function Known(option: Option<Versions>): Versions {
    if option.Some? then option.value else map[]
  }

  function LastKnown(versions: Versions, name: string): Version {
    if name in versions then versions[name] else None
  }

  /** The stored core version; an empty one counts as none. */
  function CoreBefore(store: Store): Version {
    if store.core == Some("") then None else store.core
  }

  datatype Step =
    | Baseline(plugins: Versions, themes: Versions, core: Version)
    | Activate(plugin: string, version: Version)
    | Deactivate(plugin: string, version: Version)
    | Delete(plugin: string, deleted: bool)
    | SwitchTheme(name: string, oldVersion: Version, newVersion: Version)
    | UpgradePlugins(names: seq<string>, install: bool, read: string -> Version)
    | UpgradeThemes(names: seq<string>, install: bool, read: string -> Version)
    | UpdateCore(release: string)

  // ---------- What one handler stores and queues ----------

  /** An event is queued only while connected. */
  function Queued(connected: bool, events: seq<Event>): seq<Event> {
    if connected then events else []
  }

  function OrElse<T>(option: Option<T>, fallback: T): Option<T> {
    if option.Some? then option else Some(fallback)
  }

  function PluginEvents(versions: Versions, plugin: string, install: bool, version: Version): seq<Event> {
    var before := LastKnown(versions, plugin);
    if install then [Event(PluginInstalled, plugin, None, version)]
    else if before == version then []
    else [Event(PluginUpdated, plugin, before, version)]
  }

  function ThemeEvents(versions: Versions, theme: string, install: bool, version: Version): seq<Event> {
    var before := LastKnown(versions, theme);
    if install || before == version then [] else [Event(ThemeUpdated, theme, before, version)]
  }

  /** The plugin map after a list of upgrades; an absent map stays absent when nothing is remembered. */
  function PluginsAfter(option: Option<Versions>, names: seq<string>, install: bool, read: string -> Version)
    : Option<Versions>
    decreases |names|
  {
    if names == [] then option
    else
      var before, last := PluginsAfter(option, names[..|names| - 1], install, read), names[|names| - 1];
      if !install && LastKnown(Known(before), last) == read(last) then before
      else Some(Known(before)[last := read(last)])
  }

  function PluginsEvents(option: Option<Versions>, names: seq<string>, install: bool,
                         read: string -> Version): seq<Event>
    decreases |names|
  {
    if names == [] then []
    else
      var before, last := names[..|names| - 1], names[|names| - 1];
      PluginsEvents(option, before, install, read)
      + PluginEvents(Known(PluginsAfter(option, before, install, read)), last, install, read(last))
  }

  function ThemesAfter(option: Option<Versions>, names: seq<string>, read: string -> Version): Option<Versions>
    decreases |names|
  {
    if names == [] then option
    else Some(Known(ThemesAfter(option, names[..|names| - 1], read))[names[|names| - 1] := read(names[|names| - 1])])
  }

  function ThemesEvents(option: Option<Versions>, names: seq<string>, install: bool,
                        read: string -> Version): seq<Event>
    decreases |names|
  {
    if names == [] then []
    else
      var before, last := names[..|names| - 1], names[|names| - 1];
      ThemesEvents(option, before, install, read)
      + ThemeEvents(Known(ThemesAfter(option, before, read)), last, install, read(last))
  }

  function Without(versions: Versions, name: string): Versions {
    map n | n in versions && n != name :: versions[n]
  }

  function After(store: Store, connected: bool, step: Step): Store {
    match step
    case Baseline(plugins, themes, core) =>
      if !connected then store
      else Store(OrElse(store.plugins, plugins), OrElse(store.themes, themes),
                 if store.core.Some? then store.core else core)
    case Activate(plugin, version) => store.(plugins := Some(Known(store.plugins)[plugin := version]))
    case Deactivate(_, _) => store
    case Delete(plugin, deleted) =>
      if !deleted then store else store.(plugins := Some(Without(Known(store.plugins), plugin)))
    case SwitchTheme(_, _, _) => store
    case UpgradePlugins(names, install, read) => store.(plugins := PluginsAfter(store.plugins, names, install, read))
    case UpgradeThemes(names, _, read) => store.(themes := ThemesAfter(store.themes, names, read))
    case UpdateCore(version) => if version == "" then store else store.(core := Some(version))
  }

  function Raised(store: Store, step: Step): seq<Event> {
    match step
    case Baseline(_, _, _) => []
    case Activate(plugin, version) => [Event(PluginActivated, plugin, None, version)]
    case Deactivate(plugin, version) => [Event(PluginDeactivated, plugin, version, None)]
    case Delete(plugin, deleted) =>
      if !deleted then [] else [Event(PluginDeleted, plugin, LastKnown(Known(store.plugins), plugin), None)]
    case SwitchTheme(name, oldVersion, newVersion) => [Event(ThemeActivated, name, oldVersion, newVersion)]
    case UpgradePlugins(names, install, read) => PluginsEvents(store.plugins, names, install, read)
    case UpgradeThemes(names, install, read) => ThemesEvents(store.themes, names, install, read)
    case UpdateCore(version) =>
      if version == "" || CoreBefore(store) == Some(version) then []
      else [Event(CoreUpdated, "", CoreBefore(store), Some(version))]
  }

  function EventsOf(store: Store, connected: bool, step: Step): seq<Event> {
    Queued(connected, Raised(store, step))
  }

  // ---------- The handlers ----------

  class SystemEventReporter {
    var store: Store
    var queue: seq<Event>

    constructor (store: Store)
      ensures this.store == store && queue == []
    {
      this.store := store;
      queue := [];
    }

    method Enqueue(connected: bool, event: Event)
      modifies this`queue
      ensures queue == old(queue) + Queued(connected, [event])
    {
      if !connected {
        return;
      }
      queue := queue + [event];
    }

    method EnsureBaseline(connected: bool, plugins: Versions, themes: Versions, core: Version)
      modifies this
      ensures store == After(old(store), connected, Baseline(plugins, themes, core))
      ensures queue == old(queue) + EventsOf(old(store), connected, Baseline(plugins, themes, core))
    {
      if !connected {
        return;
      }
      if store.plugins == None {
        store := store.(plugins := Some(plugins));
      }
      if store.themes == None {
        store := store.(themes := Some(themes));
      }
      if store.core == None {
        store := store.(core := core);
      }
    }

    method RememberPluginVersion(plugin: string, version: Version)
      modifies this`store
      ensures store == old(store).(plugins := Some(Known(old(store).plugins)[plugin := version]))
    {
      var versions := Known(store.plugins);
      versions := versions[plugin := version];
      store := store.(plugins := Some(versions));
    }

    method OnPluginActivated(connected: bool, plugin: string, version: Version)
      modifies this
      ensures store == After(old(store), connected, Activate(plugin, version))
      ensures queue == old(queue) + EventsOf(old(store), connected, Activate(plugin, version))
    {
      RememberPluginVersion(plugin, version);
      Enqueue(connected, Event(PluginActivated, plugin, None, version));
    }

    method OnPluginDeactivated(connected: bool, plugin: string, version: Version)
      modifies this
      ensures store == After(old(store), connected, Deactivate(plugin, version))
      ensures queue == old(queue) + EventsOf(old(store), connected, Deactivate(plugin, version))
    {
      Enqueue(connected, Event(PluginDeactivated, plugin, version, None));
    }

    method OnPluginDeleted(connected: bool, plugin: string, deleted: bool)
      modifies this
      ensures store == After(old(store), connected, Delete(plugin, deleted))
      ensures queue == old(queue) + EventsOf(old(store), connected, Delete(plugin, deleted))
    {
      if !deleted {
        return;
      }
      var versions := Known(store.plugins);
      var lastKnown := LastKnown(versions, plugin);
      store := store.(plugins := Some(Without(versions, plugin)));
      Enqueue(connected, Event(PluginDeleted, plugin, lastKnown, None));
    }

    method OnThemeSwitched(connected: bool, name: string, oldVersion: Version, newVersion: Version)
      modifies this
      ensures store == After(old(store), connected, SwitchTheme(name, oldVersion, newVersion))
      ensures queue == old(queue) + EventsOf(old(store), connected, SwitchTheme(name, oldVersion, newVersion))
    {
      Enqueue(connected, Event(ThemeActivated, name, oldVersion, newVersion));
    }

    method ReportPluginChange(connected: bool, plugin: string, install: bool, version: Version)
      modifies this
      ensures store == old(store).(plugins :=
                if !install && LastKnown(Known(old(store).plugins), plugin) == version then old(store).plugins
                else Some(Known(old(store).plugins)[plugin := version]))
      ensures queue == old(queue) + Queued(connected, PluginEvents(Known(old(store).plugins), plugin, install, version))
    {
      var before := LastKnown(Known(store.plugins), plugin);
      if !install && before == version {
        return;
      }
      RememberPluginVersion(plugin, version);
      Enqueue(connected, Event(if install then PluginInstalled else PluginUpdated, plugin,
                               if install then None else before, version));
    }

    method ReportThemeChange(connected: bool, theme: string, install: bool, version: Version)
      modifies this
      ensures store == old(store).(themes := Some(Known(old(store).themes)[theme := version]))
      ensures queue == old(queue) + Queued(connected, ThemeEvents(Known(old(store).themes), theme, install, version))
    {
      var versions := Known(store.themes);
      var before := LastKnown(versions, theme);
      store := store.(themes := Some(versions[theme := version]));
      if install || before == version {
        return;
      }
      Enqueue(connected, Event(ThemeUpdated, theme, before, version));
    }

    method OnPluginsUpgraded(connected: bool, names: seq<string>, install: bool, read: string -> Version)
      modifies this
      ensures store == After(old(store), connected, UpgradePlugins(names, install, read))
      ensures queue == old(queue) + EventsOf(old(store), connected, UpgradePlugins(names, install, read))
    {
      for n := 0 to |names|
        invariant store == old(store).(plugins := PluginsAfter(old(store).plugins, names[..n], install, read))
        invariant queue == old(queue) + Queued(connected, PluginsEvents(old(store).plugins, names[..n], install, read))
      {
        assert names[..n + 1][..n] == names[..n];
        ReportPluginChange(connected, names[n], install, read(names[n]));
      }
      assert names[..|names|] == names;
    }

    method OnThemesUpgraded(connected: bool, names: seq<string>, install: bool, read: string -> Version)
      modifies this
      ensures store == After(old(store), connected, UpgradeThemes(names, install, read))
      ensures queue == old(queue) + EventsOf(old(store), connected, UpgradeThemes(names, install, read))
    {
      for n := 0 to |names|
        invariant store == old(store).(themes := ThemesAfter(old(store).themes, names[..n], read))
        invariant queue == old(queue) + Queued(connected, ThemesEvents(old(store).themes, names[..n], install, read))
      {
        assert names[..n + 1][..n] == names[..n];
        ReportThemeChange(connected, names[n], install, read(names[n]));
      }
      assert names[..|names|] == names;
    }

    method OnCoreUpdated(connected: bool, version: string)
      modifies this
      ensures store == After(old(store), connected, UpdateCore(version))
      ensures queue == old(queue) + EventsOf(old(store), connected, UpdateCore(version))
    {
      if version == "" {
        return;
      }
      var before := if store.core.Some? && store.core.value != "" then store.core else None;
      if before == Some(version) {
        return;
      }
      store := store.(core := Some(version));
      Enqueue(connected, Event(CoreUpdated, "", before, Some(version)));
    }
  }
}
