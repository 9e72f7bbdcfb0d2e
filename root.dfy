/** The top-level project commands: resolving a typed name, the command
    layer's own name check, creating a project (optionally provisioned from
    a template), opening, renaming and removing one. */
module RootCommands {
  import opened Wrappers
  import opened Text
  import opened IndexMaps
  import opened Program
  import opened Configuration
  import opened Autocomplete
  import opened ProjectLibrary
  import opened TemplateCommands
  import Fs

  // ---------------------------------------------------------------------
  // Resolving a name

  /** `resolve_project_name`: `-` stands for the recent project when that
      feature is on; otherwise the name is completed against the library's
      names when autocomplete is on, and taken as typed when it is off.
      `confirmed` answers the completion prompt. */
  function ResolveProjectName(typed: string, config: Config, lib: Library, confirmed: bool): (r: Option<string>)
    reads config, lib
    ensures typed == "-" && config.recent.enabled ==> r == Some(config.recent.recentProject)
    ensures !(typed == "-" && config.recent.enabled) && typed in lib.GetNames() ==> r == Some(typed)
    ensures !(typed == "-" && config.recent.enabled) && config.autocomplete.enabled && r.Some? ==>
      r.value in lib.GetNames() && StartsWith(Lower(r.value), Lower(typed))
    ensures !(typed == "-" && config.recent.enabled) && !config.autocomplete.enabled ==> r == Some(typed)
  {
    if typed == "-" && config.recent.enabled then Some(config.recent.recentProject)
    else if config.autocomplete.enabled then
      var r := Complete(typed, lib.GetNames(), config.autocomplete.alwaysAccept, confirmed);
      if r.Some? then CompleteIsSound(typed, lib.GetNames(), config.autocomplete.alwaysAccept, confirmed); r
      else r
    else Some(typed)
  }

  // ---------------------------------------------------------------------
  // The command layer's name check

  datatype RootNameError = NameEmpty | NameWithInvalidCharacters | DotName | NameReservedOnWindows

  function RootNameErrorMessage(e: RootNameError): string {
    match e
    case NameEmpty => "project name cannot be empty."
    case NameWithInvalidCharacters => "project name contains invalid characters."
    case DotName => "project name cannot be '.' or '..'."
    case NameReservedOnWindows => "project name cannot be a reserved name on Windows."
  }

  /** The root module's `validate_project_name`: the same characters as the
      library's, but only `.` and `..` refused by name, and the reserved
      device names compared after `to_uppercase`. */
  function ValidateRootName(name: string, windows: bool): (r: Outcome<RootNameError>)
    ensures r == Fail(NameEmpty) <==> name == ""
    ensures name != "" && ContainsAny(name, InvalidChars) ==> r == Fail(NameWithInvalidCharacters)
    ensures r.Pass? ==> forall i :: 0 <= i < |name| ==> name[i] !in InvalidChars
    ensures r.Pass? ==> name != "." && name != ".."
    ensures r.Pass? && windows ==> forall w :: w in WindowsReserved ==> !EqIgnoreCase(name, w)
    ensures !windows ==> (r.Pass? <==> name != "" && !ContainsAny(name, InvalidChars) && name != "." && name != "..")
  {
    if name == "" then Fail(NameEmpty)
    else if ContainsAny(name, InvalidChars) then Fail(NameWithInvalidCharacters)
    else if name == "." || name == ".." then Fail(DotName)
    else if windows && Upper(name) in WindowsReserved then Fail(NameReservedOnWindows)
    else
      assert windows ==> forall w :: w in WindowsReserved ==> !EqIgnoreCase(name, w) by {
        if windows {
          forall w | w in WindowsReserved ensures !EqIgnoreCase(name, w) {
            ReservedNameIsUpper(w);
            UpperEqIffEqIgnoreCase(name, w);
          }
        }
      }
      Pass
  }

  lemma ReservedNameIsUpper(w: string)
    requires w in WindowsReserved
    ensures Upper(w) == w
  {
    var i :| 0 <= i < |WindowsReserved| && WindowsReserved[i] == w;
    ReservedNameHasNoLowerCase(i);
  }

  lemma ReservedNameHasNoLowerCase(i: nat)
    requires i < |WindowsReserved|
    ensures forall k :: 0 <= k < |WindowsReserved[i]| ==> !('a' <= WindowsReserved[i][k] <= 'z')
  {
    var w := WindowsReserved[i];
    assert |w| <= 4;
  }

  /** Every name the library's validator accepts passes the command layer's
      check as well, which therefore never decides a `create` or `rename`
      on its own except by its messages. */
  lemma {:induction false} RootAcceptsWhatLibraryAccepts(name: string, windows: bool)
    requires ValidateProjectName(name, windows).Pass?
    ensures ValidateRootName(name, windows).Pass?
  {
    assert Lower(name) != Lower(IgnoredNames[0]) && Lower(name) != Lower(IgnoredNames[1]);
    if windows && Upper(name) in WindowsReserved {
      ReservedNameIsUpper(Upper(name));
      UpperEqIffEqIgnoreCase(name, Upper(name));
    }
  }

  /** The converse fails: `-` passes the command layer and is refused by
      the library. */
  lemma DashPassesOnlyTheRootCheck(windows: bool)
    ensures ValidateRootName("-", windows).Pass?
    ensures ValidateProjectName("-", windows) == Fail(NotAllowed)
  {
    assert !ContainsAny("-", InvalidChars) by {
      assert "-"[0] !in InvalidChars;
    }
    assert Upper("-") == "-";
    assert EqIgnoreCase("-", IgnoredNames[6]);
  }

  // ---------------------------------------------------------------------
  // Errors of the commands

  datatype RootError =
    | InvalidName(reason: RootNameError)
    | LibraryFailure(libraryError: LibraryError)
    | TemplateMissing(template: string)
    | ConfigurationFailure(configError: ConfigError)
    | ShellNotConfigured
    | CommandFailed(command: string, commandError: ProgramError)
    | CleanupFailed(cleanupError: LibraryError)
    | MissingArgument(message: string)
    | NoSuchProject
    | ProgramNotSpecified
    | LaunchFailed(launchError: ProgramError)

  // ---------------------------------------------------------------------
  // Creating a project from a template

  /** The launch of one template command: the shell with its arguments and
      the command, in the project's directory, in the foreground, with
      `KANRI_PROJECT` set to the project's name. */
  function CommandLaunch(profile: Profile, cwd: string, name: string, quiet: bool, command: string): LaunchOptions {
    LaunchOptions(profile.shell, profile.shellArgs + [command], Some(cwd), false, quiet, Some([("KANRI_PROJECT", name)]))
  }

  function CommandLaunches(profile: Profile, cwd: string, name: string, quiet: bool, commands: seq<string>): (r: seq<LaunchOptions>)
    ensures |r| == |commands|
    ensures forall i :: 0 <= i < |commands| ==> r[i] == CommandLaunch(profile, cwd, name, quiet, commands[i])
  {
    seq(|commands|, i requires 0 <= i < |commands| => CommandLaunch(profile, cwd, name, quiet, commands[i]))
  }

  /** The first of `n` launches that fails, given which ones do. */
  function FirstFailure(n: nat, failures: map<nat, ProgramError>): (r: Option<nat>)
    ensures r.None? <==> forall i :: 0 <= i < n ==> i !in failures
    ensures r.Some? ==> r.value < n && r.value in failures
    ensures r.Some? ==> forall j :: 0 <= j < r.value ==> j !in failures
  {
    if n == 0 then None
    else match FirstFailure(n - 1, failures)
      case Some(k) => Some(k)
      case None => if n - 1 in failures then Some(n - 1) else None
  }

  /** The commands that get launched: all of them, or those up to and
      including the first that fails. */
  function LaunchedPrefix(commands: seq<string>, failures: map<nat, ProgramError>): seq<string> {
    match FirstFailure(|commands|, failures)
    case None => commands
    case Some(k) => commands[..k + 1]
  }

  /** The provisioning loop: the commands run in order until one fails,
      and that one is the last launched. */
  method RunCommands(profile: Profile, cwd: string, name: string, commands: seq<string>, quiet: bool,
                     failures: map<nat, ProgramError>)
    returns (failed: Option<nat>, launched: seq<LaunchOptions>)
    ensures failed == FirstFailure(|commands|, failures)
    ensures failed.None? ==> launched == CommandLaunches(profile, cwd, name, quiet, commands)
    ensures failed.Some? ==> launched == CommandLaunches(profile, cwd, name, quiet, commands[..failed.value + 1])
  {
    launched := [];
    var i := 0;
    while i < |commands|
      invariant 0 <= i <= |commands|
      invariant launched == CommandLaunches(profile, cwd, name, quiet, commands[..i])
      invariant forall j :: 0 <= j < i ==> j !in failures
    {
      var args := profile.shellArgs;
      args := args + [commands[i]];
      var options := LaunchOptions(profile.shell, args, Some(cwd), false, quiet, Some([("KANRI_PROJECT", name)]));
      launched := launched + [options];
      assert launched == CommandLaunches(profile, cwd, name, quiet, commands[..i + 1]);
      if i in failures {
        return Some(i), launched;
      }
      i := i + 1;
    }
    assert commands[..i] == commands;
    failed := None;
  }

  /** The commands run; when one fails the project is deleted, and when
      the deletion fails too, its error is the one reported. */
  method RunTemplate(lib: Library, name: string, profile: Profile, cwd: string, commands: seq<string>, quiet: bool,
                     failures: map<nat, ProgramError>, deleteFault: Option<Fs.IoErrorKind>)
    returns (r: Outcome<RootError>, launched: seq<LaunchOptions>)
    requires lib.Valid()
    requires !Fs.NamesBaseOrParent(name)
    modifies lib, lib.disk
    ensures lib.Valid()
    ensures launched == CommandLaunches(profile, cwd, name, quiet, LaunchedPrefix(commands, failures))
    ensures FirstFailure(|commands|, failures).None? ==>
      && r == Pass && lib.projects == old(lib.projects) && lib.disk.children == old(lib.disk.children)
    ensures FirstFailure(|commands|, failures).Some? && deleteFault.None? && old(lib.disk.Lookup(name)) == Some(Fs.Dir) ==>
      var k := FirstFailure(|commands|, failures).value;
      && r == Fail(CommandFailed(commands[k], failures[k]))
      && lib.projects == RemoveKeys(old(lib.projects), {name})
      && lib.disk.children == Fs.RemoveChild(old(lib.disk.children), name)
    ensures FirstFailure(|commands|, failures).Some? && (deleteFault.Some? || old(lib.disk.Lookup(name)) != Some(Fs.Dir)) ==>
      && r.Fail? && r.error.CleanupFailed?
      && lib.projects == old(lib.projects) && lib.disk.children == old(lib.disk.children)
    ensures FirstFailure(|commands|, failures).Some? && deleteFault.Some? ==> r == Fail(CleanupFailed(IoError(deleteFault.value)))
  {
    var failed;
    failed, launched := RunCommands(profile, cwd, name, commands, quiet, failures);
    if failed.None? {
      return Pass, launched;
    }
    var cleanup := lib.Delete(name, deleteFault);
    if cleanup.Fail? {
      return Fail(CleanupFailed(cleanup.error)), launched;
    }
    r := Fail(CommandFailed(commands[failed.value], failures[failed.value]));
  }

  /** The state `create` succeeds in. */
  ghost predicate Creates(lib: Library, name: string, createFault: Option<Fs.IoErrorKind>)
    reads lib, lib.disk
  {
    && ValidateRootName(name, lib.windows).Pass?
    && !lib.disk.Exists(name)
    && ValidateProjectName(name, lib.windows).Pass?
    && createFault.None?
  }

  /** A template was asked for and found, and the current profile has a
      shell: the commands will run. */
  ghost predicate Runs(config: Config, store: TemplateStore, template: Option<string>)
    reads config, store
  {
    && template.Some? && GetTemplate(store, template.value).Success?
    && config.GetProfile(config.options.currentProfile).Success?
    && config.GetProfile(config.options.currentProfile).value.shell != ""
  }

  ghost function TemplateOf(store: TemplateStore, template: Option<string>): seq<string>
    reads store
  {
    if template.Some? && template.value in store.templates then store.templates[template.value] else []
  }

  ghost function ProfileOf(config: Config): Profile
    reads config
  {
    match config.GetProfile(config.options.currentProfile)
    case Success(p) => p
    case Failure(_) => Profile("", [], false, "", [])
  }

  /** What `handle_new` reports when no template command runs. */
  ghost function SetupOutcome(config: Config, store: TemplateStore, template: Option<string>): Outcome<RootError>
    reads config, store
  {
    if template.None? then Pass
    else if GetTemplate(store, template.value).Failure? then Fail(TemplateMissing(template.value))
    else if config.GetProfile(config.options.currentProfile).Failure? then
      Fail(ConfigurationFailure(config.GetProfile(config.options.currentProfile).error))
    else Fail(ShellNotConfigured)
  }

  /** The part of `handle_new` after the directory `name` was created: the
      template is looked up, the profile's shell checked, and the commands
      run; a failing command has the project deleted again, which leaves
      `before` and `beforeChildren`, the index and the directory without it. */
  method ApplyTemplate(config: Config, lib: Library, store: TemplateStore, name: string, template: Option<string>,
                       quiet: bool, failures: map<nat, ProgramError>, deleteFault: Option<Fs.IoErrorKind>,
                       ghost before: IndexMap<string>, ghost beforeChildren: seq<Fs.Child>)
    returns (r: Outcome<RootError>, launched: seq<LaunchOptions>)
    requires lib.Valid() && lib.disk.Lookup(name) == Some(Fs.Dir)
    requires RemoveKeys(lib.projects, {name}) == before && Fs.RemoveChild(lib.disk.children, name) == beforeChildren
    requires lib.basePath == config.options.projectsDirectory
    modifies lib, lib.disk
    ensures lib.Valid()
    ensures forall i :: 0 <= i < |launched| ==> launched[i].cwd == Some(Fs.Join(lib.basePath, name))
    ensures !Runs(config, store, template) ==>
      && r == SetupOutcome(config, store, template) && launched == []
      && lib.projects == old(lib.projects) && lib.disk.children == old(lib.disk.children)
    ensures Runs(config, store, template) ==>
      var cwd := Fs.Join(lib.basePath, name);
      var commands := TemplateOf(store, template);
      var k := FirstFailure(|commands|, failures);
      && launched == CommandLaunches(ProfileOf(config), cwd, name, quiet, LaunchedPrefix(TemplateOf(store, template), failures))
      && (k.None? ==> r == Pass && lib.projects == old(lib.projects) && lib.disk.children == old(lib.disk.children))
      && (k.Some? && deleteFault.None? ==>
           && r == Fail(CommandFailed(commands[k.value], failures[k.value]))
           && lib.projects == before && lib.disk.children == beforeChildren)
      && (k.Some? && deleteFault.Some? ==>
           && r == Fail(CleanupFailed(IoError(deleteFault.value)))
           && lib.projects == old(lib.projects) && lib.disk.children == old(lib.disk.children))
  {
    launched := [];
    if template.None? {
      return Pass, launched;
    }
    var commands := GetTemplate(store, template.value);
    if commands.Failure? {
      return Fail(TemplateMissing(template.value)), launched;
    }
    var profile := config.GetProfile(config.options.currentProfile);
    if profile.Failure? {
      return Fail(ConfigurationFailure(profile.error)), launched;
    }
    if profile.value.shell == "" {
      return Fail(ShellNotConfigured), launched;
    }
    var cwd := Fs.Join(config.options.projectsDirectory, name);
    assert Runs(config, store, template);
    assert TemplateOf(store, template) == commands.value && ProfileOf(config) == profile.value;
    r, launched := RunTemplate(lib, name, profile.value, cwd, commands.value, quiet, failures, deleteFault);
  }

  /** `handle_new`: the command layer's check, then `create`; only after
      the directory exists are the template looked up and the profile's
      shell checked, so those failures leave the new project in place. A
      failing template command is compensated by deleting the project.
      The library was opened on the configuration's projects directory, so
      every command runs inside the created project. */
  method HandleNew(config: Config, lib: Library, store: TemplateStore, name: string, template: Option<string>,
                   quiet: bool, createFault: Option<Fs.IoErrorKind>, failures: map<nat, ProgramError>,
                   deleteFault: Option<Fs.IoErrorKind>)
    returns (r: Outcome<RootError>, launched: seq<LaunchOptions>)
    requires lib.Valid()
    requires lib.basePath == config.options.projectsDirectory
    modifies lib, lib.disk
    ensures lib.Valid()
    ensures forall i :: 0 <= i < |launched| ==> launched[i].cwd == Some(Fs.Join(lib.basePath, name))
    ensures ValidateRootName(name, lib.windows).Fail? ==>
      && r == Fail(InvalidName(ValidateRootName(name, lib.windows).error)) && launched == []
      && lib.projects == old(lib.projects) && lib.disk.children == old(lib.disk.children)
    ensures ValidateRootName(name, lib.windows).Pass? && old(lib.disk.Exists(name)) ==> r == Fail(LibraryFailure(AlreadyExists))
    ensures ValidateRootName(name, lib.windows).Pass? && !old(lib.disk.Exists(name)) && ValidateProjectName(name, lib.windows).Fail? ==>
      r == Fail(LibraryFailure(CustomError(NameErrorMessage(ValidateProjectName(name, lib.windows).error))))
    ensures ValidateRootName(name, lib.windows).Pass? && !old(lib.disk.Exists(name)) && ValidateProjectName(name, lib.windows).Pass? &&
            createFault.Some? ==>
      r == Fail(LibraryFailure(ClassifyCreate(createFault.value)))
    ensures !old(Creates(lib, name, createFault)) ==>
      && r.Fail? && launched == []
      && lib.projects == old(lib.projects) && lib.disk.children == old(lib.disk.children)
    // From here on the project directory exists.
    ensures old(Creates(lib, name, createFault)) && !Runs(config, store, template) ==>
      && launched == [] && r == SetupOutcome(config, store, template)
      && lib.projects == old(lib.projects) + [Entry(name, Fs.Join(lib.basePath, name))]
      && lib.disk.children == old(lib.disk.children) + [Fs.Child(name, Fs.Dir)]
    ensures old(Creates(lib, name, createFault)) && Runs(config, store, template) ==>
      var k := FirstFailure(|TemplateOf(store, template)|, failures);
      && launched == CommandLaunches(ProfileOf(config), Fs.Join(lib.basePath, name), name, quiet, LaunchedPrefix(TemplateOf(store, template), failures))
      && (k.None? ==>
           && r == Pass && lib.projects == old(lib.projects) + [Entry(name, Fs.Join(lib.basePath, name))]
           && lib.disk.children == old(lib.disk.children) + [Fs.Child(name, Fs.Dir)])
      && (k.Some? && deleteFault.None? ==>
           && r == Fail(CommandFailed(TemplateOf(store, template)[k.value], failures[k.value]))
           && lib.projects == old(lib.projects) && lib.disk.children == old(lib.disk.children))
      && (k.Some? && deleteFault.Some? ==>
           && r == Fail(CleanupFailed(IoError(deleteFault.value)))
           && lib.projects == old(lib.projects) + [Entry(name, Fs.Join(lib.basePath, name))]
           && lib.disk.children == old(lib.disk.children) + [Fs.Child(name, Fs.Dir)])
  {
    launched := [];
    var v := ValidateRootName(name, lib.windows);
    if v.Fail? {
      return Fail(InvalidName(v.error)), launched;
    }
    ghost var before := lib.projects;
    ghost var beforeChildren := lib.disk.children;
    var created := lib.Create(name, createFault);
    if created.Fail? {
      return Fail(LibraryFailure(created.error)), launched;
    }
    assert !HasKey(before, name) && Fs.LookupIn(beforeChildren, name).None?;
    Fs.LookupAfterAppend(beforeChildren, Fs.Child(name, Fs.Dir), name);
    RemoveAppendedKey(before, name, Fs.Join(lib.basePath, name));
    Fs.RemoveAppendedChild(beforeChildren, Fs.Child(name, Fs.Dir));
    r, launched := ApplyTemplate(config, lib, store, name, template, quiet, failures, deleteFault, before, beforeChildren);
  }

  // ---------------------------------------------------------------------
  // Opening a project

  /** How `handle_open` launches: the shell bare, in the foreground, with
      `KANRI_SESSION=1`; or the editor with its arguments and fork mode. */
  function OpenLaunch(profile: Profile, shellMode: bool, path: string): LaunchOptions {
    if shellMode then LaunchOptions(profile.shell, [], Some(path), false, false, Some([("KANRI_SESSION", "1")]))
    else LaunchOptions(profile.editor, profile.editorArgs, Some(path), profile.editorForkMode, false, None)
  }

  /** The recent project after a successful launch of `name`. */
  function RecentAfterOpen(recent: RecentOptions, name: string): (r: RecentOptions)
    ensures r.enabled == recent.enabled
    ensures recent.enabled ==> r.recentProject == name
    ensures !recent.enabled ==> r == recent
    ensures r != recent <==> recent.enabled && name != recent.recentProject
  {
    if recent.enabled && name != recent.recentProject then recent.(recentProject := name) else recent
  }

  /** `handle_open`: resolves and looks up the project, then (unless only
      its path is asked for) launches the profile's editor or shell in it;
      the recent project changes only after that launch succeeded. */
  method HandleOpen(config: Config, lib: Library, name: Option<string>, completionConfirmed: bool,
                    pathOnly: bool, shellMode: bool, launch: Outcome<ProgramError>)
    returns (r: Outcome<RootError>, path: Option<string>, launched: Option<LaunchOptions>, saved: bool)
    requires lib.Valid()
    modifies config
    ensures name.None? ==> r == Fail(MissingArgument("project name is required.")) && launched.None?
    ensures name.Some? ==>
      var resolved := old(ResolveProjectName(name.value, config, lib, completionConfirmed));
      && (resolved.None? || !lib.Contains(resolved.value) ==> r == Fail(NoSuchProject) && launched.None? && path.None?)
      && (resolved.Some? && lib.Contains(resolved.value) && pathOnly ==>
           r == Pass && path == Some(Fs.Join(lib.basePath, resolved.value)) && launched.None?)
      && (launched.Some? ==>
           && resolved.Some? && lib.Contains(resolved.value) && !pathOnly
           && config.GetProfile(config.options.currentProfile).Success?
           && launched.value == OpenLaunch(config.GetProfile(config.options.currentProfile).value, shellMode,
                                           Fs.Join(lib.basePath, resolved.value))
           && launched.value.program != "")
      && (resolved.Some? && lib.Contains(resolved.value) && !pathOnly &&
          config.GetProfile(config.options.currentProfile).Failure? ==>
           r == Fail(ConfigurationFailure(config.GetProfile(config.options.currentProfile).error)) && launched.None?)
      && (resolved.Some? && lib.Contains(resolved.value) && !pathOnly &&
          config.GetProfile(config.options.currentProfile).Success? ==>
           var options := OpenLaunch(config.GetProfile(config.options.currentProfile).value, shellMode,
                                     Fs.Join(lib.basePath, resolved.value));
           && (options.program == "" ==> r == Fail(ProgramNotSpecified) && launched.None?)
           && (options.program != "" ==> launched == Some(options)))
      && (launched.Some? && launch.Fail? ==> r == Fail(LaunchFailed(launch.error)))
      && (launched.Some? && launch.Pass? ==>
           r == Pass && config.recent == RecentAfterOpen(old(config.recent), resolved.value)
           && saved == (config.recent != old(config.recent)))
    ensures launched.None? || launch.Fail? ==> config.recent == old(config.recent) && !saved
    ensures r.Pass? && !pathOnly ==> launched.Some?
    ensures unchanged(config`version, config`options, config`profiles, config`autocomplete)
  {
    path, launched, saved := None, None, false;
    if name.None? {
      return Fail(MissingArgument("project name is required.")), path, launched, saved;
    }
    var resolved := ResolveProjectName(name.value, config, lib, completionConfirmed);
    if resolved.None? {
      return Fail(NoSuchProject), path, launched, saved;
    }
    var project := lib.Get(resolved.value);
    if project.None? {
      return Fail(NoSuchProject), path, launched, saved;
    }
    if pathOnly {
      return Pass, project, launched, saved;
    }
    var profile := config.GetProfile(config.options.currentProfile);
    if profile.Failure? {
      return Fail(ConfigurationFailure(profile.error)), path, launched, saved;
    }
    var program, args, forkMode;
    if shellMode {
      program, args, forkMode := profile.value.shell, [], false;
    } else {
      program, args, forkMode := profile.value.editor, profile.value.editorArgs, profile.value.editorForkMode;
    }
    if program == "" {
      return Fail(ProgramNotSpecified), path, launched, saved;
    }
    var options := LaunchOptions(program, args, Some(project.value), forkMode, false, None);
    if shellMode {
      options := options.(env := Some([("KANRI_SESSION", "1")]));
    }
    launched := Some(options);
    if launch.Fail? {
      return Fail(LaunchFailed(launch.error)), path, launched, saved;
    }
    if config.recent.enabled && resolved.value != config.recent.recentProject {
      config.recent := config.recent.(recentProject := resolved.value);
      saved := true;
    }
    r := Pass;
  }

  // ---------------------------------------------------------------------
  // Renaming and removing

  /** `handle_rename`: both names are required; the command layer's check
      of the new name comes before the library's `rename`. */
  method HandleRename(lib: Library, oldName: Option<string>, newName: Option<string>, fault: Option<Fs.IoErrorKind>)
    returns (r: Outcome<RootError>)
    requires lib.Valid()
    modifies lib, lib.disk
    ensures lib.Valid()
    ensures oldName.None? ==> r == Fail(MissingArgument("provide a project name to rename."))
    ensures oldName.Some? && newName.None? ==> r == Fail(MissingArgument("provide a new name for a project."))
    ensures oldName.Some? && newName.Some? && ValidateRootName(newName.value, lib.windows).Fail? ==>
      r == Fail(InvalidName(ValidateRootName(newName.value, lib.windows).error))
    ensures oldName.Some? && newName.Some? && ValidateRootName(newName.value, lib.windows).Pass? && !HasKey(old(lib.projects), oldName.value) ==>
      r == Fail(LibraryFailure(LibraryError.ProjectNotFound))
    ensures oldName.Some? && newName.Some? && ValidateRootName(newName.value, lib.windows).Pass? && HasKey(old(lib.projects), oldName.value) ==>
      var n := newName.value;
      && (HasKey(old(lib.projects), n) ==> r == Fail(LibraryFailure(AlreadyExists)))
      && (!HasKey(old(lib.projects), n) && ValidateProjectName(n, lib.windows).Fail? ==>
           r == Fail(LibraryFailure(CustomError(NameErrorMessage(ValidateProjectName(n, lib.windows).error)))))
      && (!HasKey(old(lib.projects), n) && ValidateProjectName(n, lib.windows).Pass? && fault.Some? ==>
           r == Fail(LibraryFailure(ClassifyIo(fault.value))))
      && (!HasKey(old(lib.projects), n) && ValidateProjectName(n, lib.windows).Pass? && fault.None? && old(lib.disk.Exists(n)) ==>
           r == Fail(LibraryFailure(IoError(old(lib.disk.RenameTargetError(n))))))
    ensures r.Pass? <==>
      && oldName.Some? && newName.Some?
      && ValidateRootName(newName.value, lib.windows).Pass?
      && HasKey(old(lib.projects), oldName.value) && !HasKey(old(lib.projects), newName.value)
      && ValidateProjectName(newName.value, lib.windows).Pass? && fault.None? && !old(lib.disk.Exists(newName.value))
    ensures r.Fail? ==> lib.projects == old(lib.projects) && lib.disk.children == old(lib.disk.children)
    ensures r.Pass? ==>
      && lib.projects == Insert(SwapRemove(old(lib.projects), oldName.value), newName.value, Fs.Join(lib.basePath, newName.value))
      && lib.disk.children == Fs.RenameChild(old(lib.disk.children), oldName.value, newName.value)
  {
    if oldName.None? {
      return Fail(MissingArgument("provide a project name to rename."));
    }
    if newName.None? {
      return Fail(MissingArgument("provide a new name for a project."));
    }
    var v := ValidateRootName(newName.value, lib.windows);
    if v.Fail? {
      return Fail(InvalidName(v.error));
    }
    var renamed := lib.Rename(oldName.value, newName.value, fault);
    if renamed.Fail? {
      return Fail(LibraryFailure(renamed.error));
    }
    r := Pass;
  }

  /** The prompt stands between the command and the deletion only for a
      project that is not empty and not forced. */
  predicate RemovalDeclined(nonEmpty: bool, force: bool, confirmed: bool) {
    nonEmpty && !force && !confirmed
  }

  /** `handle_remove`: resolves the name, asks before removing a project
      that is not empty unless forced, then deletes it. `nonEmpty` is
      whether the directory holds anything; `confirmed` answers the prompt. */
  method HandleRemove(config: Config, lib: Library, name: Option<string>, completionConfirmed: bool,
                      nonEmpty: bool, force: bool, confirmed: bool, fault: Option<Fs.IoErrorKind>)
    returns (r: Outcome<RootError>)
    requires lib.Valid()
    modifies lib, lib.disk
    ensures lib.Valid()
    ensures name.None? ==> r == Fail(MissingArgument("provide a name of project to remove."))
    ensures name.Some? ==>
      var resolved := old(ResolveProjectName(name.value, config, lib, completionConfirmed));
      && (resolved.None? || !old(lib.Contains(resolved.value)) ==> r == Fail(NoSuchProject))
      && (resolved.Some? && old(lib.Contains(resolved.value)) && RemovalDeclined(nonEmpty, force, confirmed) ==> r == Pass)
      && (resolved.Some? && old(lib.Contains(resolved.value)) && !RemovalDeclined(nonEmpty, force, confirmed) ==>
           && (fault.Some? ==> r == Fail(LibraryFailure(IoError(fault.value))))
           && (fault.None? ==>
                && r == Pass
                && lib.projects == RemoveKeys(old(lib.projects), {resolved.value})
                && lib.disk.children == Fs.RemoveChild(old(lib.disk.children), resolved.value)))
    ensures r.Fail? || RemovalDeclined(nonEmpty, force, confirmed) ==>
      lib.projects == old(lib.projects) && lib.disk.children == old(lib.disk.children)
  {
    if name.None? {
      return Fail(MissingArgument("provide a name of project to remove."));
    }
    var resolved := ResolveProjectName(name.value, config, lib, completionConfirmed);
    if resolved.None? {
      return Fail(NoSuchProject);
    }
    var project := lib.Get(resolved.value);
    if project.None? {
      return Fail(NoSuchProject);
    }
    if nonEmpty && !force && !confirmed {
      return Pass;
    }
    var deleted := lib.Delete(resolved.value, fault);
    if deleted.Fail? {
      return Fail(LibraryFailure(deleted.error));
    }
    r := Pass;
  }
}
