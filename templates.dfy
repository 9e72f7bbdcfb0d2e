/** The `templates` commands that shape data: turning what the user wrote in
    the editor into a template's commands, storing it, and looking a
    template up. */
module TemplateCommands {
  import opened Wrappers
  import opened Text
  import opened Program
  import opened Configuration

  datatype TemplateError =
    | MissingName
    | ConfigFailure(configError: ConfigError)
    | EditorFailed(launchError: ProgramError)
    | NoCommands
    | SaveFailed
    | TemplateNotFound

  function TemplateErrorMessage(e: TemplateError): Option<string> {
    match e
    case MissingName => Some("provide a name for template.")
    case NoCommands => Some("no commands entered.")
    case SaveFailed => Some("failed to save templates.")
    case TemplateNotFound => Some("Template not found.")
    case _ => None
  }

  /** The template store: template name to its commands. */
  class TemplateStore {
    var templates: map<string, seq<string>>

    constructor (templates: map<string, seq<string>>)
      ensures this.templates == templates
    {
      this.templates := templates;
    }

    /** `add_template`: the commands are stored under the name. */
    method AddTemplate(name: string, commands: seq<string>)
      modifies this
      ensures templates == old(templates)[name := commands]
      ensures name in templates && templates[name] == commands
      ensures forall other :: other != name ==> (other in templates <==> other in old(templates))
    {
      templates := templates[name := commands];
    }
  }

  /** A line the user wrote is a command unless its raw text starts with `#`. */
  predicate IsCommand(line: string) {
    !StartsWith(line, "#")
  }

  /** The commands among `lines`, in order. */
  function CommandLines(lines: seq<string>): (r: seq<string>)
    ensures |r| <= |lines|
    ensures forall x :: x in r <==> x in lines && IsCommand(x)
  {
    if lines == [] then []
    else
      var init := CommandLines(lines[..|lines| - 1]);
      var last := lines[|lines| - 1];
      assert lines == lines[..|lines| - 1] + [last];
      init + (if IsCommand(last) then [last] else [])
  }

  /** Filtering distributes over concatenation: the kept lines keep their
      relative order. */
  lemma {:induction false} CommandLinesAppend(a: seq<string>, b: seq<string>)
    ensures CommandLines(a + b) == CommandLines(a) + CommandLines(b)
    decreases |b|
  {
    if b == [] {
      assert a + b == a;
    } else {
      var b' := b[..|b| - 1];
      assert (a + b)[..|a + b| - 1] == a + b';
      assert (a + b)[|a + b| - 1] == b[|b| - 1];
      CommandLinesAppend(a, b');
    }
  }

  /** Lines without comments come through unchanged, blank ones included. */
  lemma {:induction false} CommandLinesKeepsCommands(lines: seq<string>)
    requires forall i :: 0 <= i < |lines| ==> IsCommand(lines[i])
    ensures CommandLines(lines) == lines
  {
    if lines != [] {
      CommandLinesKeepsCommands(lines[..|lines| - 1]);
      assert lines == lines[..|lines| - 1] + [lines[|lines| - 1]];
    }
  }

  /** Comment lines drop out entirely. */
  lemma {:induction false} CommandLinesDropsComments(lines: seq<string>)
    requires forall i :: 0 <= i < |lines| ==> !IsCommand(lines[i])
    ensures CommandLines(lines) == []
  {
    if lines != [] {
      CommandLinesDropsComments(lines[..|lines| - 1]);
    }
  }

  /** A line is not trimmed before the test: an indented `#` is a command,
      and so is a blank line. */
  lemma IndentedHashIsCommand()
    ensures IsCommand("  #x") && IsCommand("")
    ensures CommandLines(["# Write your command here.", "  #x", "", "cargo init"]) == ["  #x", "", "cargo init"]
  {
    assert "  #x"[..1][0] != "#"[0];
    assert "# Write your command here."[..1] == "#";
    assert "cargo init"[..1][0] != "#"[0];
    var ls := ["# Write your command here.", "  #x", "", "cargo init"];
    assert ls[..3][..2][..1] == ls[..1];
    assert CommandLines(ls[..1]) == [];
  }

  /** The comment goes; the blank line and the leading space stay. */
  lemma CommandsOfExampleLines()
    ensures CommandLines(["a", "#x", "", " b"]) == ["a", "", " b"]
  {
    var ls := ["a", "#x", "", " b"];
    assert "a"[..1][0] != "#"[0];
    assert "#x"[..1] == "#";
    assert " b"[..1][0] != "#"[0];
    assert ls[..1][..0] == [];
    assert CommandLines(ls[..1]) == ["a"];
    assert ls[..2][..1] == ls[..1];
    assert CommandLines(ls[..2]) == ["a"];
    assert ls[..3][..2] == ls[..2];
    assert CommandLines(ls[..3]) == ["a", ""];
    assert ls[..3] == ls[..|ls| - 1];
  }

  /** The loop of `handle_new` over the lines of what was written. */
  method ParseCommands(content: string) returns (commands: seq<string>)
    ensures commands == CommandLines(Lines(content))
  {
    var lines := Lines(content);
    commands := [];
    var i := 0;
    while i < |lines|
      invariant 0 <= i <= |lines|
      invariant commands == CommandLines(lines[..i])
    {
      assert lines[..i + 1][..i] == lines[..i];
      if !StartsWith(lines[i], "#") {
        commands := commands + [lines[i]];
      }
      i := i + 1;
    }
    assert lines[..|lines|] == lines;
  }

  /** `handle_new`: with a name, the current profile's editor opens the
      scratch file at `filePath`; `launch` is how the editor run ends,
      `content` what the file holds afterwards, `saveOk` whether writing
      the store succeeds. With no commands the store is left alone. Here
      `saved` reports that the store was written successfully: a write that
      fails gives `SaveFailed` with `saved` false. */
  method HandleNew(name: Option<string>, config: Config, filePath: string, launch: Outcome<ProgramError>,
                   content: string, store: TemplateStore, saveOk: bool)
    returns (r: Outcome<TemplateError>, launched: Option<LaunchOptions>, saved: bool)
    modifies store
    ensures name.None? ==> r == Fail(MissingName) && launched.None?
    ensures name.Some? && config.GetProfile(config.options.currentProfile).Failure? ==>
      r == Fail(ConfigFailure(config.GetProfile(config.options.currentProfile).error)) && launched.None?
    ensures launched.Some? <==> name.Some? && config.GetProfile(config.options.currentProfile).Success?
    ensures launched.Some? ==>
      launched.value == LaunchOptions(config.GetProfile(config.options.currentProfile).value.editor,
                                      [filePath], None, false, false, None)
    ensures launched.Some? && launch.Fail? ==> r == Fail(EditorFailed(launch.error))
    ensures launched.Some? && launch.Pass? && CommandLines(Lines(content)) == [] ==> r == Fail(NoCommands)
    ensures r.Pass? <==> launched.Some? && launch.Pass? && CommandLines(Lines(content)) != [] && saveOk
    ensures saved <==> r.Pass?
    ensures r.Fail? && r.error != SaveFailed ==> store.templates == old(store.templates)
    ensures r.Pass? || r == Fail(SaveFailed) ==>
      store.templates == old(store.templates)[name.value := CommandLines(Lines(content))]
  {
    saved := false;
    launched := None;
    if name.None? {
      return Fail(MissingName), launched, saved;
    }
    var profile := config.GetProfile(config.options.currentProfile);
    if profile.Failure? {
      return Fail(ConfigFailure(profile.error)), launched, saved;
    }
    launched := Some(LaunchOptions(profile.value.editor, [filePath], None, false, false, None));
    if launch.Fail? {
      return Fail(EditorFailed(launch.error)), launched, saved;
    }
    var commands := ParseCommands(content);
    if commands == [] {
      return Fail(NoCommands), launched, saved;
    }
    store.AddTemplate(name.value, commands);
    if !saveOk {
      return Fail(SaveFailed), launched, saved;
    }
    saved := true;
    r := Pass;
  }

  /** `handle_get`: the commands of a template, in stored order. */
  function GetTemplate(store: TemplateStore, name: string): (r: Result<seq<string>, TemplateError>)
    reads store
    ensures r.Success? <==> name in store.templates
    ensures r.Success? ==> r.value == store.templates[name]
    ensures r.Failure? ==> r.error == TemplateNotFound
  {
    if name in store.templates then Success(store.templates[name]) else Failure(TemplateNotFound)
  }
}
