/** The `config` commands that change state: showing or clearing the recent
    project, and resetting the whole configuration. */
module ConfigCommands {
  import opened Wrappers
  import opened Configuration

  datatype RecentError = RecentDisabled | NothingToClear | NoRecentProject

  function RecentErrorMessage(e: RecentError): string {
    match e
    case RecentDisabled => "Recent feature is disabled in the configuration file."
    case NothingToClear => "Nothing to clear."
    case NoRecentProject => "No recent project found."
  }

  /** `handle_recent`: with `clear` the recent project is forgotten and the
      configuration saved; without it the recent project is shown. */
  method HandleRecent(config: Config, clear: bool) returns (r: Outcome<RecentError>, shown: Option<string>, saved: bool)
    modifies config
    ensures !old(config.recent.enabled) ==> r == Fail(RecentDisabled)
    ensures old(config.recent.enabled) && clear && old(config.recent.recentProject) == "" ==> r == Fail(NothingToClear)
    ensures old(config.recent.enabled) && !clear && old(config.recent.recentProject) == "" ==> r == Fail(NoRecentProject)
    ensures r.Pass? <==> old(config.recent.enabled) && old(config.recent.recentProject) != ""
    ensures r.Pass? && clear ==> config.recent == old(config.recent).(recentProject := "") && saved && shown.None?
    ensures r.Pass? && !clear ==> config.recent == old(config.recent) && !saved && shown == Some(config.recent.recentProject)
    ensures r.Fail? ==> config.recent == old(config.recent) && !saved && shown.None?
    ensures unchanged(config`version, config`options, config`profiles, config`autocomplete)
  {
    shown := None;
    saved := false;
    if !config.recent.enabled {
      return Fail(RecentDisabled), shown, saved;
    }
    if clear {
      if config.recent.recentProject == "" {
        return Fail(NothingToClear), shown, saved;
      }
      config.recent := config.recent.(recentProject := "");
      return Pass, shown, true;
    }
    if config.recent.recentProject == "" {
      return Fail(NoRecentProject), shown, saved;
    }
    shown := Some(config.recent.recentProject);
    r := Pass;
  }

  /** `handle_reset`: on confirmation the configuration becomes the default
      for the platform and is saved; otherwise nothing changes. */
  method HandleReset(config: Config, p: Platform, confirmed: bool) returns (saved: bool)
    modifies config
    ensures saved == confirmed
    ensures confirmed ==> config.Valid() && config.IsDefault(p)
    ensures !confirmed ==> unchanged(config)
  {
    if confirmed {
      config.Reset(p);
      return true;
    }
    return false;
  }
}
