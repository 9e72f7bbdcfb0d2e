/** The `profiles` commands: create a profile from the answers to the
    wizard's questions, switch the current profile, list, show and remove
    profiles. */
module Profiles {
  import opened Wrappers
  import opened Text
  import opened IndexMaps
  import opened Configuration

  datatype ProfileError = DuplicateProfile | EmptyEditor | EmptyShell | UnknownProfile(name: string)

  function ProfileErrorMessage(e: ProfileError): string {
    match e
    case DuplicateProfile => "Profile with the same name already exists."
    case EmptyEditor => "Editor name is empty."
    case EmptyShell => "Shell name is empty."
    case UnknownProfile(name) => "Profile " + name + " not found."
  }

  /** Editors the wizard recognises: launched through their `.cmd` wrapper
      (except `zed`), forked and given the current directory. */
  const WizardEditors: seq<string> := [
    "code", "code-insiders", "codium", "code-oss", "cursor", "windsurf", "zed",
    "code.cmd", "code-insiders.cmd", "codium.cmd", "code-oss.cmd", "windsurf.cmd", "cursor.cmd"]

  const WizardPowerShells: seq<string> := ["pwsh", "pwsh.exe", "powershell", "powershell.exe"]

  /** The editor name the wizard stores. */
  function WizardEditorName(editor: string): string {
    if editor in WizardEditors && editor != "zed" && !EndsWith(editor, ".cmd") then editor + ".cmd"
    else editor
  }

  function WizardShellArgs(shell: string): seq<string> {
    if shell in WizardPowerShells then ["-NoLogo", "-Command"] else ["-c"]
  }

  /** The profile the wizard builds; `forkAnswer` is the answer to "run your
      editor forked?", asked only for an editor it does not recognise. */
  function WizardProfile(editor: string, forkAnswer: bool, shell: string): Profile {
    if editor in WizardEditors then Profile(WizardEditorName(editor), ["."], true, shell, WizardShellArgs(shell))
    else Profile(editor, [], forkAnswer, shell, WizardShellArgs(shell))
  }

  /** A recognised editor is stored as a recognised editor that launches
      through a `.cmd` wrapper or is `zed`. */
  lemma WizardEditorAt(i: nat)
    requires i < |WizardEditors|
    ensures WizardEditorName(WizardEditors[i]) in WizardEditors
    ensures WizardEditorName(WizardEditors[i]) == "zed" || EndsWith(WizardEditorName(WizardEditors[i]), ".cmd")
  {
    if i < 6 {
      var j := if i == 4 then 12 else if i == 5 then 11 else i + 7;
      WizardEditorGetsCmd(i, j);
    } else if i > 6 {
      var e := WizardEditors[i];
      assert e in WizardEditors;
      assert e[|e| - 4..] == ".cmd";
    }
  }

  /** The six bare names gain the suffix and become their `.cmd` twins. */
  lemma WizardEditorGetsCmd(i: nat, j: nat)
    requires i < 6 && j == (if i == 4 then 12 else if i == 5 then 11 else i + 7)
    ensures WizardEditorName(WizardEditors[i]) == WizardEditors[j]
    ensures EndsWith(WizardEditors[j], ".cmd")
  {
    if i == 0 {
      BareEditorGetsCmd("code", 0, 7);
    } else if i == 1 {
      BareEditorGetsCmd("code-insiders", 1, 8);
    } else if i == 2 {
      BareEditorGetsCmd("codium", 2, 9);
    } else if i == 3 {
      BareEditorGetsCmd("code-oss", 3, 10);
    } else if i == 4 {
      BareEditorGetsCmd("cursor", 4, 12);
    } else {
      BareEditorGetsCmd("windsurf", 5, 11);
    }
  }

  lemma BareEditorGetsCmd(e: string, i: nat, j: nat)
    requires i < |WizardEditors| && j < |WizardEditors| && e == WizardEditors[i]
    requires e != "zed" && 0 < |e| && e[|e| - 1] != 'd' && WizardEditors[j] == e + ".cmd"
    ensures WizardEditorName(e) == WizardEditors[j]
    ensures EndsWith(WizardEditors[j], ".cmd")
  {
    assert e[|e| - 1] != ".cmd"[3];
    assert !EndsWith(e, ".cmd");
    assert (e + ".cmd")[|e|..] == ".cmd";
  }

  /** Storing a name twice changes nothing more than storing it once, and an
      editor the wizard does not recognise is stored as typed. */
  lemma WizardEditorNameIsStable(editor: string)
    ensures editor in WizardEditors ==> WizardEditorName(editor) in WizardEditors
    ensures editor in WizardEditors ==> WizardEditorName(editor) == "zed" || EndsWith(WizardEditorName(editor), ".cmd")
    ensures WizardEditorName(WizardEditorName(editor)) == WizardEditorName(editor)
    ensures editor !in WizardEditors ==> WizardEditorName(editor) == editor
  {
    if editor in WizardEditors {
      var i :| 0 <= i < |WizardEditors| && WizardEditors[i] == editor;
      WizardEditorAt(i);
    }
  }

  /** The wizard and the defaults agree on the shell arguments except for
      `cmd`, to which the wizard gives `-c` instead of `/C`. */
  lemma WizardShellArgsAgreeWithDefaults(shell: string)
    ensures shell !in CmdShells ==> WizardShellArgs(shell) == DefaultShellArgs(shell)
    ensures shell in CmdShells ==> WizardShellArgs(shell) == ["-c"] != DefaultShellArgs(shell)
  {
    assert shell in WizardPowerShells <==> shell in PowerShells;
    assert shell in CmdShells ==> shell !in PowerShells;
  }

  /** Every editor the defaults fork is one the wizard recognises, and both
      fork it with the current directory as its argument. */
  lemma WizardForksDefaultEditors(editor: string, forkAnswer: bool, shell: string)
    requires editor in ForkingEditors
    ensures editor in WizardEditors
    ensures WizardProfile(editor, forkAnswer, shell).editorForkMode
    ensures WizardProfile(editor, forkAnswer, shell).editorArgs == ["."]
  {
    var i :| 0 <= i < |ForkingEditors| && ForkingEditors[i] == editor;
    assert ForkingEditors[i] in WizardEditors by {
      if i <= 3 { assert WizardEditors[i] == ForkingEditors[i]; }
      else { assert WizardEditors[i + 1] == ForkingEditors[i]; }
    }
  }

  /** `handle_new`: a new profile under a new name, at the end of the
      profiles, then saved. */
  method HandleNew(config: Config, name: string, editor: string, forkAnswer: bool, shell: string)
    returns (r: Outcome<ProfileError>, saved: bool)
    requires config.Valid()
    modifies config
    ensures config.Valid()
    ensures HasKey(old(config.profiles), name) ==> r == Fail(DuplicateProfile)
    ensures !HasKey(old(config.profiles), name) && editor == "" ==> r == Fail(EmptyEditor)
    ensures !HasKey(old(config.profiles), name) && editor != "" && shell == "" ==> r == Fail(EmptyShell)
    ensures r.Pass? <==> !HasKey(old(config.profiles), name) && editor != "" && shell != ""
    ensures r.Fail? ==> config.profiles == old(config.profiles) && !saved
    ensures r.Pass? ==> saved && config.profiles == old(config.profiles) + [Entry(name, WizardProfile(editor, forkAnswer, shell))]
    ensures unchanged(config`version, config`options, config`recent, config`autocomplete)
  {
    saved := false;
    if HasKey(config.profiles, name) {
      return Fail(DuplicateProfile), saved;
    }
    if editor == "" {
      return Fail(EmptyEditor), saved;
    }
    var storedEditor := editor;
    var editorForkMode: bool;
    var editorArgs: seq<string> := [];
    if editor in WizardEditors {
      if editor != "zed" && !EndsWith(editor, ".cmd") {
        storedEditor := storedEditor + ".cmd";
      }
      editorForkMode := true;
      editorArgs := editorArgs + ["."];
    } else {
      editorForkMode := forkAnswer;
    }
    assert storedEditor == WizardEditorName(editor);
    if shell == "" {
      return Fail(EmptyShell), saved;
    }
    var shellArgs: seq<string> := [];
    if shell in WizardPowerShells {
      shellArgs := shellArgs + ["-NoLogo"];
      shellArgs := shellArgs + ["-Command"];
    } else {
      shellArgs := shellArgs + ["-c"];
    }
    assert shellArgs == WizardShellArgs(shell);
    var profile := Profile(storedEditor, editorArgs, editorForkMode, shell, shellArgs);
    assert profile == WizardProfile(editor, forkAnswer, shell);
    config.profiles := Insert(config.profiles, name, profile);
    saved := true;
    r := Pass;
  }

  /** `handle_set`: the current profile becomes `name`, which must exist. */
  method HandleSet(config: Config, name: string) returns (r: Outcome<ProfileError>, saved: bool)
    requires config.Valid()
    modifies config
    ensures config.Valid()
    ensures r.Pass? <==> HasKey(config.profiles, name)
    ensures r.Fail? ==> r.error == UnknownProfile(name) && !saved && config.options == old(config.options)
    ensures r.Pass? ==> saved && config.options == old(config.options).(currentProfile := name)
    ensures r.Pass? ==> config.GetProfile(config.options.currentProfile).Success?
    ensures unchanged(config`version, config`profiles, config`recent, config`autocomplete)
  {
    if !HasKey(config.profiles, name) {
      return Fail(UnknownProfile(name)), false;
    }
    config.options := config.options.(currentProfile := name);
    return Pass, true;
  }

  /** `handle_list`: one row per profile, in order, the current one marked. */
  function ListRows(config: Config): (rows: seq<(string, bool)>)
    reads config
    ensures |rows| == |config.profiles|
    ensures forall i :: 0 <= i < |rows| ==> rows[i].0 == config.profiles[i].key
    ensures forall i :: 0 <= i < |rows| ==> (rows[i].1 <==> config.profiles[i].key == config.options.currentProfile)
  {
    seq(|config.profiles|, i requires 0 <= i < |config.profiles| reads config =>
      (config.profiles[i].key, config.profiles[i].key == config.options.currentProfile))
  }

  /** At most one row is marked current, and one is exactly when the
      current profile exists. */
  lemma ListMarksCurrentOnce(config: Config)
    requires config.Valid()
    ensures forall i, j :: 0 <= i < j < |ListRows(config)| ==> !(ListRows(config)[i].1 && ListRows(config)[j].1)
    ensures (exists i :: 0 <= i < |ListRows(config)| && ListRows(config)[i].1) <==>
            config.GetProfile(config.options.currentProfile).Success?
  {
    var rows := ListRows(config);
    if config.GetProfile(config.options.currentProfile).Success? {
      var i := Find(config.profiles, config.options.currentProfile).value;
      assert rows[i].1;
    }
  }

  /** `handle_info`: the editor and the shell of a profile. */
  function Info(config: Config, name: string): (r: Result<(string, string), ConfigError>)
    reads config
    ensures r.Success? <==> HasKey(config.profiles, name)
    ensures r.Failure? ==> r.error == ProfileNotFound(name)
    ensures config.Valid() && r.Success? ==>
      exists p :: Entry(name, p) in config.profiles && r.value == (p.editor, p.shell)
  {
    var p :- config.GetProfile(name);
    Success((p.editor, p.shell))
  }

  /** `handle_remove` as written: an existing profile goes after
      confirmation, keeping the order of the others, and the configuration is
      not saved, so the removal does not outlive the command. */
  method HandleRemove(config: Config, name: string, confirmed: bool) returns (r: Outcome<ProfileError>, saved: bool)
    requires config.Valid()
    modifies config
    ensures config.Valid()
    ensures r.Pass? <==> HasKey(old(config.profiles), name)
    ensures r.Fail? ==> r.error == UnknownProfile(name)
    ensures r.Fail? || !confirmed ==> config.profiles == old(config.profiles)
    ensures r.Pass? && confirmed ==> config.profiles == RemoveKeys(old(config.profiles), {name})
    ensures !saved
    ensures unchanged(config`version, config`options, config`recent, config`autocomplete)
  {
    saved := false;
    if !HasKey(config.profiles, name) {
      return Fail(UnknownProfile(name)), saved;
    }
    if !confirmed {
      return Pass, saved;
    }
    ShiftRemoveIsRemoveKey(config.profiles, name);
    config.profiles := ShiftRemove(config.profiles, name);
    r := Pass;
  }

  /** `handle_remove` as evidently intended: a confirmed removal is saved
      like every other change to the profiles. */
  method HandleRemoveAndSave(config: Config, name: string, confirmed: bool) returns (r: Outcome<ProfileError>, saved: bool)
    requires config.Valid()
    modifies config
    ensures config.Valid()
    ensures r.Pass? <==> HasKey(old(config.profiles), name)
    ensures r.Fail? ==> r.error == UnknownProfile(name)
    ensures r.Fail? || !confirmed ==> config.profiles == old(config.profiles) && !saved
    ensures r.Pass? && confirmed ==> config.profiles == RemoveKeys(old(config.profiles), {name}) && saved
    ensures r.Pass? && confirmed ==> !config.GetProfile(name).Success?
    ensures unchanged(config`version, config`options, config`recent, config`autocomplete)
  {
    r, saved := HandleRemove(config, name, confirmed);
    if r.Pass? && confirmed {
      saved := true;
    }
  }
}
