/** The configuration: general options, the profiles (which editor and
    shell to launch, and how), the recent project and the autocomplete
    switches, with the defaults the program writes on first run. */
module Configuration {
  import opened Wrappers
  import opened IndexMaps
  import Fs

  datatype ConfigError =
    | WriteFailed
    | FormatFailed
    | FileNotFound
    | BadConfiguration(message: string)
    | ProfileNotFound(name: string)
    | FileSystemError(kind: Fs.IoErrorKind)

  datatype Profile = Profile(
    editor: string,
    editorArgs: seq<string>,
    editorForkMode: bool,
    shell: string,
    shellArgs: seq<string>)

  datatype GeneralOptions = GeneralOptions(projectsDirectory: string, currentProfile: string, displayHidden: bool)

  datatype AutocompleteOptions = AutocompleteOptions(enabled: bool, alwaysAccept: bool)

  datatype RecentOptions = RecentOptions(enabled: bool, recentProject: string)

  /** What the platform layer reports: the default editor, shell and
      projects directory of the machine. */
  datatype Platform = Platform(defaultEditor: string, defaultShell: string, defaultProjectsDir: string)

  /** Default editors that open the current directory and detach. */
  const ForkingEditors: seq<string> := ["code", "code-insiders", "codium", "code-oss", "windsurf", "zed"]

  const PowerShells: seq<string> := ["powershell.exe", "powershell", "pwsh.exe", "pwsh"]

  const CmdShells: seq<string> := ["cmd", "cmd.exe"]

  /** The arguments that make the default shell run one command. */
  function DefaultShellArgs(shell: string): seq<string> {
    if shell in PowerShells then ["-NoLogo", "-Command"]
    else if shell in CmdShells then ["/C"]
    else ["-c"]
  }

  function GeneralDefaults(p: Platform): GeneralOptions {
    GeneralOptions(p.defaultProjectsDir, "default", false)
  }

  function AutocompleteDefaults(): AutocompleteOptions {
    AutocompleteOptions(true, true)
  }

  function RecentDefaults(): RecentOptions {
    RecentOptions(true, "")
  }

  /** The profile the defaults hold for a platform. */
  ghost predicate IsDefaultProfile(p: Platform, prof: Profile) {
    && prof.editor == p.defaultEditor
    && prof.shell == p.defaultShell
    && prof.shellArgs == DefaultShellArgs(p.defaultShell)
    && (if p.defaultEditor in ForkingEditors then prof.editorArgs == ["."] && prof.editorForkMode
        else prof.editorArgs == [] && !prof.editorForkMode)
  }

  /** The profile part of `Config::default`: editor arguments pushed and the
      fork flag set for the known editors. */
  method DefaultProfile(p: Platform) returns (prof: Profile)
    ensures IsDefaultProfile(p, prof)
    ensures prof.editorForkMode <==> p.defaultEditor in ForkingEditors
    ensures prof.editorArgs == (if p.defaultEditor in ForkingEditors then ["."] else [])
  {
    var editor := p.defaultEditor;
    var editorArgs: seq<string> := [];
    var editorForkMode := false;
    if editor in ForkingEditors {
      editorArgs := editorArgs + ["."];
      editorForkMode := true;
    }
    var shell := p.defaultShell;
    prof := Profile(editor, editorArgs, editorForkMode, shell, DefaultShellArgs(shell));
  }

  lemma DefaultShellArgsExamples()
    ensures DefaultShellArgs("pwsh") == ["-NoLogo", "-Command"]
    ensures DefaultShellArgs("cmd.exe") == ["/C"]
    ensures DefaultShellArgs("zsh") == ["-c"] && DefaultShellArgs("nu") == ["-c"]
  {
    assert PowerShells[3] == "pwsh";
    assert CmdShells[1] == "cmd.exe";
    assert "zsh" !in PowerShells && "zsh" !in CmdShells;
    assert "nu" !in PowerShells && "nu" !in CmdShells;
  }

  class Config {
    var version: string
    var options: GeneralOptions
    var profiles: IndexMap<Profile>
    var recent: RecentOptions
    var autocomplete: AutocompleteOptions

    ghost predicate Valid()
      reads this
    {
      Wf(profiles)
    }

    /** `Config::default()`: version "1", the default options, and the one
        profile "default". */
    ghost predicate IsDefault(p: Platform)
      reads this
    {
      && version == "1"
      && options == GeneralDefaults(p)
      && recent == RecentDefaults()
      && autocomplete == AutocompleteDefaults()
      && |profiles| == 1 && profiles[0].key == "default" && IsDefaultProfile(p, profiles[0].value)
    }

    constructor Default(p: Platform)
      ensures Valid() && IsDefault(p)
    {
      var prof := DefaultProfile(p);
      version := "1";
      options := GeneralDefaults(p);
      profiles := [Entry("default", prof)];
      recent := RecentDefaults();
      autocomplete := AutocompleteDefaults();
    }

    /** A configuration as loaded from its file. */
    constructor Loaded(version: string, options: GeneralOptions, profiles: IndexMap<Profile>,
                       recent: RecentOptions, autocomplete: AutocompleteOptions)
      requires Wf(profiles)
      ensures Valid()
      ensures this.version == version && this.options == options && this.profiles == profiles
      ensures this.recent == recent && this.autocomplete == autocomplete
    {
      this.version := version;
      this.options := options;
      this.profiles := profiles;
      this.recent := recent;
      this.autocomplete := autocomplete;
    }

    /** `get_profile`: the profile stored under `name`, or `ProfileNotFound`
        naming what was asked for. */
    function GetProfile(name: string): (r: Result<Profile, ConfigError>)
      reads this
      ensures r.Success? <==> HasKey(profiles, name)
      ensures r.Failure? ==> r.error == ProfileNotFound(name)
      ensures Valid() && r.Success? ==> Entry(name, r.value) in profiles
    {
      match Get(profiles, name)
      case Some(prof) =>
        assert Valid() ==> Entry(name, prof) in profiles by {
          if Valid() {
            var i := Find(profiles, name).value;
            assert profiles[i] == Entry(name, prof);
          }
        }
        Success(prof)
      case None => Failure(ProfileNotFound(name))
    }

    /** `reset`: the whole configuration becomes the default. */
    method Reset(p: Platform)
      modifies this
      ensures Valid() && IsDefault(p)
    {
      var prof := DefaultProfile(p);
      version := "1";
      options := GeneralDefaults(p);
      profiles := [Entry("default", prof)];
      recent := RecentDefaults();
      autocomplete := AutocompleteDefaults();
    }
  }

  /** In the default configuration the current profile is there to be
      found, and it is the default profile. */
  lemma DefaultCurrentProfileResolves(c: Config, p: Platform)
    requires c.IsDefault(p)
    ensures c.GetProfile(c.options.currentProfile) == Success(c.profiles[0].value)
    ensures IsDefaultProfile(p, c.GetProfile(c.options.currentProfile).value)
  {
    assert c.profiles[0].key == c.options.currentProfile;
    assert Find(c.profiles, c.options.currentProfile) == Some(0);
  }
}
