/** Which events the handlers of SystemEventReporter.php queue, change by change. */
module ToldChanges {
  import opened Prelude
  import opened SystemEvents

  /** The version stored under a name, if any. */
  function LastStored(option: Option<Versions>, name: string): Version {
    if option.Some? && name in option.value then option.value[name] else None
  }

  /** While connected one event tells a single change: its kind, whom it is about, and the two versions. */
  lemma SingleChangesTold(store: Store, name: string, oldVersion: Version, newVersion: Version, release: string)
    ensures EventsOf(store, true, Activate(name, newVersion)) == [Event(PluginActivated, name, None, newVersion)]
    ensures EventsOf(store, true, Deactivate(name, oldVersion)) == [Event(PluginDeactivated, name, oldVersion, None)]
    ensures EventsOf(store, true, Delete(name, true))
         == [Event(PluginDeleted, name, LastStored(store.plugins, name), None)]
    ensures EventsOf(store, true, SwitchTheme(name, oldVersion, newVersion))
         == [Event(ThemeActivated, name, oldVersion, newVersion)]
    ensures release != "" && store.core != Some(release)
            ==> EventsOf(store, true, UpdateCore(release))
                == [Event(CoreUpdated, "", if store.core == Some("") then None else store.core, Some(release))]
  {
  }

  /** Nothing is told while disconnected, about a baseline, a plugin that was not deleted, or a core release that is
      unknown or stored already. */
  lemma NothingTold(store: Store, connected: bool, step: Step)
    requires !connected || step.Baseline? || (step.Delete? && !step.deleted)
             || (step.UpdateCore? && (step.release == "" || store.core == Some(step.release)))
    ensures EventsOf(store, connected, step) == []
  {
  }

  /** One upgraded plugin or theme: an installed plugin is always told and a theme never, an update only when its
      version is another one than the last known. */
  lemma UpgradesTold(store: Store, name: string, install: bool, read: string -> Version)
    ensures EventsOf(store, true, UpgradePlugins([name], install, read))
         == (var known := LastStored(store.plugins, name);
             if install then [Event(PluginInstalled, name, None, read(name))]
             else if known == read(name) then []
             else [Event(PluginUpdated, name, known, read(name))])
    ensures EventsOf(store, true, UpgradeThemes([name], install, read))
         == (var known := LastStored(store.themes, name);
             if install || known == read(name) then [] else [Event(ThemeUpdated, name, known, read(name))])
  {
    assert [name][..0] == [];
    assert PluginsEvents(store.plugins, [], install, read) == [] && ThemesEvents(store.themes, [], install, read) == [];
  }
}
