# kanri, modelled in Dafny

kanri is a command-line project manager. A base directory holds one
directory per project. The program keeps an insertion-ordered index of those
projects, built by scanning the base directory once. It creates, deletes,
renames and clones projects, and opens them in the editor or shell of the
current profile. It can also provision a new project from a template: a list
of shell commands run one after another inside the new directory.

This model covers:

- the project library: the name validator, the scan (hidden names, the fixed
  exclusion list, the `.ignore` file) and the index/disk updates of `create`,
  `delete` and `rename`;
- the name resolver with its autocomplete;
- the root commands `new`, `open`, `rename` and `remove`, including the
  template provisioning loop and its cleanup;
- the configuration defaults and the profile, template and recent-project
  commands.

The model is organised as follows.

- `wrappers.dfy` has `Option`, `Result` and `Outcome`.
- `text.dfy` has ASCII case folding and the string operations Rust's `trim`
  and `lines` perform.
- `index_map.dfy` models an `IndexMap` as a sequence of key/value entries.
  It has `insert`, `swap_remove` and `shift_remove`.
- `fs.dfy` models the base directory as a `Disk` object: an ordered list of
  named children, each a directory or a file. Each OS call is a method on
  it. The method takes the call's failure as a parameter (`fault`). Without
  a failure, the disk decides the result.
- `program.rs` is represented only by its launch options and error kinds
  (`program.dfy`). Every launch is an outcome passed in by the caller.
- `library.dfy` models `src/library.rs`. The `Library` class holds the index
  and the disk. Its ghost `Valid()` states index/disk consistency: every
  entry maps `name` to `base/name`, and that is a directory on the disk.
  Every mutating method keeps it.
- `autocomplete.dfy`, `config.dfy`, `profiles.dfy`, `templates.dfy`,
  `config_commands.dfy` and `root.dfy` follow the source file of the same
  role.
- The command handlers are methods over a `Config` object, a `Library` and a
  `TemplateStore`.
- The user's answers to confirmation dialogs are boolean parameters.
- Whether a configuration save was issued is a `saved` out-parameter. In the
  templates `handle_new` it means the template store was written
  successfully; a failing write gives `SaveFailed` with `saved` false.

Two details of the code that the model keeps:

- **Provisioning cleanup.** When a template command fails and the cleanup
  that removes the new project fails too, `handle_new` returns only the
  cleanup error; the command's error is dropped
  (`src/commands/root.rs:109-111`). `RootCommands.RunTemplate` does the same.
- **Which validator rejects `.` and `..`.** The library validator in
  `src/library.rs` rejects them only because they are in `IGNORED_NAMES`,
  with the "not allowed" error. Only the root validator checks for `.` and
  `..` explicitly.

## Model

| member | source | states |
|---|---|---|
| Text.LeadingWhitespace | src/library.rs:177 | the count of leading characters that are whitespace, stopping at the first that is not |
| Text.TrailingWhitespace | src/library.rs:177 | the count of trailing characters that are whitespace, stopping at the last that is not |
| Text.TrimIsInfix | src/library.rs:177 | `trim` keeps a contiguous run of the line right after its leading whitespace, and only whitespace follows the run |
| Text.TrimEnds | src/library.rs:177-178 | a trimmed line is empty or starts and ends with non-whitespace |
| Text.TrimWord | src/library.rs:177 | a non-empty line with no whitespace at either end is its own trim |
| Text.TrimExamples | src/library.rs:177 | `#x`, `a` and the empty line trim to themselves and ` b` to `b` |
| Text.Lines | src/commands/templates.rs:41 | `lines` gives no line for empty text and some line for any other text; no line holds a line feed |
| Text.LinesOfLine | src/commands/templates.rs:41 | text without a line feed is one line |
| Text.LinesCons | src/commands/templates.rs:41 | the first line ends at the first line feed and loses one carriage return before it; the rest splits on its own |
| Text.UnlinesLines | src/commands/templates.rs:41 | joining the lines with line feeds gives back text that has no carriage returns and no final line feed |
| Text.UpperEqIffEqIgnoreCase | src/commands/root.rs:51 | against an uppercase word, comparing the `to_uppercase` form is comparing ignoring case |
| ProjectLibrary.ValidateProjectName | src/library.rs:50-88 | the empty name is the only one rejected as empty; an accepted name has none of the nine invalid characters and differs, ignoring ASCII case, from every ignored name (and on Windows every reserved name); off Windows every other name is accepted |
| ProjectLibrary.ValidateIgnoresCase | src/library.rs:69-85 | the verdict is the same for a name and its lowercase form |
| ProjectLibrary.AcceptedNameIsNotIgnored | src/library.rs:50-58 | an accepted name is never exactly one of the ignored names, so the scan could not drop it by that rule |
| ProjectLibrary.ValidatorExamples | src/library.rs:60-88 | `""`, `a/b`, `$recycle.bin` and `-` are rejected with their errors |
| ProjectLibrary.ReservedOnlyOnWindows | src/library.rs:60-88 | `con` is rejected as reserved on Windows and accepted elsewhere |
| ProjectLibrary.Listing | src/library.rs:123-135 | one enumerated entry per child of the base directory |
| ProjectLibrary.IgnoreLine | src/library.rs:176-183 | a line of the ignore file yields a pattern only when, trimmed, it is non-empty and does not start with `#`; the pattern has no surrounding whitespace |
| ProjectLibrary.IgnoredInIff | src/library.rs:170-187 | a name is ignored iff some line of the ignore file yields exactly it |
| ProjectLibrary.IgnoredPathsShape | src/library.rs:174-184 | every ignored pattern is non-empty, not a comment, one line, and trimmed |
| ProjectLibrary.IgnoredPathsOfLines | src/library.rs:174-184 | any ignore file whose lines are `a`, `#x`, the empty line and ` b` ignores exactly `a` and `b` |
| ProjectLibrary.Collected | src/library.rs:133-149 | the entry loop fails iff some entry cannot be read; a successful result has distinct keys |
| ProjectLibrary.CollectedProvenance | src/library.rs:143-148 | every collected entry is `name -> base/name` for an enumerated directory entry that passes the hidden and exclusion tests |
| ProjectLibrary.CollectedKeepsAll | src/library.rs:135-149 | every enumerated entry that passes the three tests is in the index |
| ProjectLibrary.FirstEntryErrorWins | src/library.rs:135-142 | the first unreadable entry decides the error; nothing partial is returned |
| ProjectLibrary.CollectedInOrder | src/library.rs:133-149 | without unreadable entries, the index is exactly the kept entries in enumeration order |
| ProjectLibrary.KeptEntries | src/library.rs:143-148 | every kept entry comes from an enumerated entry of that name |
| ProjectLibrary.ListingDistinct | src/library.rs:133-134 | a directory's enumeration has distinct names |
| ProjectLibrary.ScanFailure | src/library.rs:119-158 | a `read_dir` failure is classified; the scan fails iff listing, an entry or the ignore file fails |
| ProjectLibrary.ScanMembership | src/library.rs:146-167 | a name is in the scanned index iff it is a kept directory entry and no ignore line names it |
| ProjectLibrary.ScanConsistent | src/library.rs:106-158 | a successful scan of a directory is consistent with it: every key maps to `base/name`, a directory on disk |
| ProjectLibrary.CollectProjects | src/library.rs:119-158 | the imperative scan loop returns exactly the scan's specification, error cases included |
| ProjectLibrary.CollectedStep | src/library.rs:135-149 | one loop iteration extends the collected prefix as the specification says |
| ProjectLibrary.FailureExtends | src/library.rs:136-141 | once an entry error occurred, later entries do not change the result |
| ProjectLibrary.ClassificationExamples | src/library.rs:123-131 | the `read_dir` error kinds map to the library's errors, and so do those of `create_dir` (lines 224-231) and `rename` (lines 286-289) |
| ProjectLibrary.CloneArgsRoundTrip | src/library.rs:192-201 | the clone argument list determines the remote, the optional name and the optional branch |
| ProjectLibrary.CloneArguments | src/library.rs:192-201 | the argument list built by pushes is `clone remote [name] [-b branch]` |
| ProjectLibrary.Library.FromScan | src/library.rs:112-115 | a library built from a consistent scan is valid |
| ProjectLibrary.Library.New | src/library.rs:106-116 | `InvalidPath` when the base is not a directory; scan errors pass through; success iff the scan succeeds, giving a valid library holding the scan |
| ProjectLibrary.Library.Contains | src/library.rs:245-247 | contains iff `get` finds it, and then it is a directory on disk |
| ProjectLibrary.Library.Get | src/library.rs:255-257 | a path iff the index has the name, always `base/name`, a directory on disk |
| ProjectLibrary.Library.GetNames | src/library.rs:250-252 | the names in index order |
| ProjectLibrary.Library.GetAll | src/library.rs:260-262 | the entries in index order, every path `base/name` of a directory |
| ProjectLibrary.Library.IsEmpty | src/library.rs:265-267 | empty means nothing is contained; otherwise the first name is contained |
| ProjectLibrary.Library.Clone | src/library.rs:191-213 | `git` runs with the clone arguments in the base directory, foreground and not quiet; a launch failure becomes `CloneFailed` |
| ProjectLibrary.Library.Create | src/library.rs:216-235 | `AlreadyExists` is checked before validation; a validator failure becomes `CustomError` with its message; `create_dir` errors are classified; failure changes nothing; success appends `name -> base/name` and a directory |
| ProjectLibrary.ConsistentAfterCreate | src/library.rs:224-233 | a new directory at the end of the disk and its entry at the end of the index keep index and directory consistent |
| ProjectLibrary.Library.Delete | src/library.rs:238-242 | for a name other than `""`, `.` and `..`: a removal failure is `IoError` and changes nothing; success removes only that key, the others keep their order, and the directory goes |
| ProjectLibrary.Library.Rename | src/library.rs:270-297 | checks in order not-found, already-in-index, validation, then `rename` errors: a fault is classified, and a target that exists on disk outside the index (hidden, ignored or a file) gives `IoError` with not-a-directory or directory-not-empty; failure changes nothing; success is swap-remove then append of `new -> base/new`, and the directory is renamed |
| ProjectLibrary.RenameConsistent | src/library.rs:270-297 | renaming keeps the index consistent with the disk |
| ProjectLibrary.RenameReorders | src/library.rs:292-294 | after a rename, the size is unchanged, the new name sits last, the former last entry takes the old slot, and the other keys are kept |
| ProjectLibrary.SecondCreateFails | src/library.rs:219-221 | a contained project exists on disk, so creating it again is `AlreadyExists` |
| ProjectLibrary.HiddenProjectsExample | src/library.rs:161-167 | of `visible_project` and `.hidden_project`, only the first is kept unless hidden names are shown |
| ProjectLibrary.HiddenKept | src/library.rs:161-167 | the kept entries for those two directories, with and without hidden names |
| IndexMaps.Insert | src/library.rs:233 | inserting a new key appends it; an existing key keeps its place with the new value |
| IndexMaps.RemoveKeys | src/library.rs:151-155 | `retain` keeps exactly the entries whose key is not removed, in order (`delete` at line 240 uses it too) |
| IndexMaps.SwapRemove | src/library.rs:293 | the removed key's slot is taken by the former last entry |
| IndexMaps.SwapRemoveProperties | src/library.rs:293 | swap-remove shortens by one and keeps every other key |
| IndexMaps.ShiftRemove | src/commands/profiles.rs:140 | shift-remove drops the key and keeps the others in order |
| IndexMaps.ShiftRemoveIsRemoveKey | src/commands/profiles.rs:140 | shift-remove of a present key is removing that one key |
| IndexMaps.RemoveKeyAt | src/library.rs:240 | removing a key that occurs only at one position cuts out exactly that position |
| Fs.Disk.CreateDir | src/library.rs:224 | creation fails on an existing name or an injected fault, else adds a directory |
| Fs.Disk.RemoveDirAll | src/library.rs:239 | for a name other than `""`, `.` and `..`: removal needs a directory of that name; it removes only that child |
| Fs.Disk.Rename | src/library.rs:284-289 | renaming needs the source and a free target; an existing target is refused as not-a-directory (a file) or not-empty (a directory); it renames only that child |
| Autocomplete.FirstCompletion | src/autocomplete.rs:32-35 | the first entry, in list order, whose lowercase starts with the lowercase word |
| Autocomplete.SuggestCompletion | src/autocomplete.rs:26-40 | `Found` iff the word is exactly in the list; `Nothing` iff nothing matches; otherwise the first match in its original spelling |
| Autocomplete.Complete | src/autocomplete.rs:10-24 | an exact word is returned unchanged |
| Autocomplete.CompleteIsSound | src/autocomplete.rs:10-40 | any returned name is in the list, and the lowercase word is a prefix of its lowercase |
| Autocomplete.CompleteGate | src/autocomplete.rs:15-21 | on a similar match a name is returned iff always-accept is on or the user confirms |
| Autocomplete.CompleteNothing | src/autocomplete.rs:22-39 | with no match nothing is returned |
| Autocomplete.EmptyWordSuggestsFirst | src/autocomplete.rs:31-36 | an empty word not in a non-empty list suggests the first entry |
| Autocomplete.SuggestionKeepsSpelling | src/autocomplete.rs:31-36 | `my` over `Alpha, MyProject, myproject` suggests `MyProject` |
| Configuration.DefaultProfile | src/config.rs:44-65 | the known editors get `["."]` and fork mode, others none; shell arguments follow the shell rule |
| Configuration.DefaultShellArgsExamples | src/config.rs:57-65 | PowerShell gets `-NoLogo -Command`, cmd gets `/C`, everything else `-c` |
| Configuration.Config.Default | src/config.rs:67-145 | version "1", the default options, and the one profile `default` |
| Configuration.Config.Loaded | src/config.rs:148-152 | a loaded configuration with distinct profile names is valid and holds what was read |
| Configuration.Config.GetProfile | src/config.rs:163-169 | success iff the name is a profile, returning its stored profile; otherwise `ProfileNotFound` naming the request |
| Configuration.Config.Reset | src/config.rs:171-173 | the whole configuration becomes the default |
| Configuration.DefaultCurrentProfileResolves | src/config.rs:67-145 | in the default configuration the current profile resolves to the default profile |
| Profiles.WizardEditorAt | src/commands/profiles.rs:30-40 | each listed editor becomes a listed editor that is `zed` or ends in `.cmd` |
| Profiles.WizardEditorGetsCmd | src/commands/profiles.rs:33-35 | a bare listed editor becomes its listed `.cmd` twin |
| Profiles.BareEditorGetsCmd | src/commands/profiles.rs:33-35 | a bare editor name gets `.cmd` appended |
| Profiles.WizardEditorNameIsStable | src/commands/profiles.rs:30-44 | the editor rewrite stays in the list, is idempotent, and leaves unlisted editors alone |
| Profiles.WizardShellArgsAgreeWithDefaults | src/commands/profiles.rs:52-62 | the wizard's shell arguments equal the defaults except for cmd, which gets `-c` instead of `/C` |
| Profiles.WizardForksDefaultEditors | src/commands/profiles.rs:30-40 | every editor that forks by default also forks in a wizard profile, with `["."]` |
| Profiles.HandleNew | src/commands/profiles.rs:11-77 | duplicate name, empty editor, empty shell are errors in that order and insert nothing; success appends the derived profile and saves |
| Profiles.HandleSet | src/commands/profiles.rs:79-93 | an unknown profile is an error with nothing changed; otherwise only the current profile changes, and it then resolves |
| Profiles.ListRows | src/commands/profiles.rs:95-112 | one row per profile in order, marked iff it is the current profile |
| Profiles.ListMarksCurrentOnce | src/commands/profiles.rs:95-112 | at most one row is marked, and one is iff the current profile exists |
| Profiles.Info | src/commands/profiles.rs:114-123 | the stored editor and shell of a profile, or `ProfileNotFound` |
| Profiles.HandleRemove | src/commands/profiles.rs:125-143 | an unknown profile is an error; declining changes nothing; confirming shift-removes that key only; no save is issued |
| Profiles.HandleRemoveAndSave | src/commands/profiles.rs:125-143 | as `HandleRemove`, but a confirmed removal is saved |
| TemplateCommands.TemplateStore.AddTemplate | src/commands/templates.rs:54 | the commands are stored under the name, other names untouched |
| TemplateCommands.CommandLines | src/commands/templates.rs:41-47 | no more lines than given; a line is kept iff it does not start with `#` |
| TemplateCommands.CommandLinesAppend | src/commands/templates.rs:41-47 | the filter distributes over concatenation, so order is kept |
| TemplateCommands.CommandLinesKeepsCommands | src/commands/templates.rs:41-47 | lines that are all commands, blank ones included, pass unchanged |
| TemplateCommands.CommandLinesDropsComments | src/commands/templates.rs:42-44 | comment lines all drop |
| TemplateCommands.IndentedHashIsCommand | src/commands/templates.rs:42 | `  #x` and a blank line are kept; the header comment is dropped |
| TemplateCommands.CommandsOfExampleLines | src/commands/templates.rs:41-47 | the lines `a`, `#x`, the empty line and ` b` give the commands `a`, the empty line and ` b` |
| TemplateCommands.ParseCommands | src/commands/templates.rs:38-47 | the loop collects exactly the command lines of the written text |
| TemplateCommands.HandleNew | src/commands/templates.rs:14-61 | missing name before any launch; the editor opens the scratch file with the current profile; launch failure, no commands, save failure in that order; success exactly when the store is written; with no commands the store is untouched |
| TemplateCommands.GetTemplate | src/commands/templates.rs:110-126 | the stored commands of a known template, otherwise `Template not found.` |
| ConfigCommands.HandleRecent | src/commands/config.rs:39-64 | disabled is an error; clear of an empty recent and show of an empty recent are errors; clear empties it and saves; show leaves everything unchanged |
| ConfigCommands.HandleReset | src/commands/config.rs:66-77 | confirming makes the configuration the default and saves; declining changes nothing |
| RootCommands.ResolveProjectName | src/commands/root.rs:17-29 | `-` with recent on gives the recent project; an exact name is kept; with autocomplete a result is a project sharing the prefix; without autocomplete the typed name |
| RootCommands.ValidateRootName | src/commands/root.rs:31-59 | empty, the nine characters, `.`/`..` and (on Windows) reserved names are rejected; off Windows everything else passes |
| RootCommands.ReservedNameIsUpper | src/commands/root.rs:47-51 | every reserved name is its own uppercase form, so the uppercase test is a case-insensitive one |
| RootCommands.ReservedNameHasNoLowerCase | src/commands/root.rs:47-50 | reserved names hold no lowercase letters |
| RootCommands.RootAcceptsWhatLibraryAccepts | src/commands/root.rs:31-59 | every name the library accepts also passes the root check |
| RootCommands.DashPassesOnlyTheRootCheck | src/commands/root.rs:31-59 | `-` passes the root check but the library rejects it |
| RootCommands.CommandLaunches | src/commands/root.rs:91-105 | one launch per command: shell with its arguments plus the command, in the project directory, with `KANRI_PROJECT`, foreground |
| RootCommands.FirstFailure | src/commands/root.rs:91-113 | the first failing command index, if any |
| RootCommands.RunCommands | src/commands/root.rs:86-105 | the commands launch in order, each as the shell with its arguments plus the command; the loop stops at the first failing one, which is the last launched, and reports it |
| RootCommands.RunTemplate | src/commands/root.rs:86-113 | commands launch in order up to and including the first failure; then `delete` runs: a successful delete gives the command error naming that command, a failed one the cleanup error |
| RootCommands.ApplyTemplate | src/commands/root.rs:69-118 | needs the library opened on the configuration's projects directory; no template is success; a missing template, a profile error and an empty shell fail in that order, launching nothing and changing nothing; otherwise the template's commands run with the current profile inside the project directory `base/name`, up to and including the first failure, which removes the project unless the cleanup fails |
| RootCommands.HandleNew | src/commands/root.rs:61-123 | needs the library opened on the configuration's projects directory; validation, then create, whose existing-target, validator and `create_dir` errors pass through unchanged; template and shell errors come after the directory exists, and the disk then holds the new directory at the end; every command runs inside the created project `base/name`; on a command failure the created project is removed again, or the cleanup error is returned |
| RootCommands.RecentAfterOpen | src/commands/root.rs:216-219 | the recent project becomes the name when recent is on; it changes iff recent is on and the name differs |
| RootCommands.HandleOpen | src/commands/root.rs:145-228 | the name is resolved and looked up; a profile error and an empty program fail before any launch; otherwise the shell or editor is launched in the project directory with the profile's launch options; the recent project is updated and saved only after a successful launch |
| RootCommands.HandleRename | src/commands/root.rs:263-282 | both names are required; the root check on the new name comes first; then every error of the library rename passes through unchanged (not found, already in the index, the validator's message, the classified `rename` error); success renames the index entry and the directory |
| RootCommands.HandleRemove | src/commands/root.rs:284-318 | the name is resolved and looked up; a declined removal of a non-empty project without force changes nothing; otherwise the library delete with its results |

## Left out

- Reading and writing the configuration, template and backup files (TOML/JSON parsing, `Config::load`, `Config::save`, `Templates::load`/`save`) are file I/O. A config save is recorded as a `saved` flag, and its failure is not modelled.
- Unicode case folding: `to_lowercase`/`to_uppercase` are modelled for ASCII letters only.
- Unicode whitespace: `trim` is modelled as removing the ASCII whitespace characters (space, tab through carriage return) only.
- Path joining is `base + "/" + name`; nested and absolute project names are not modelled.
- ProjectLibrary.Library.Delete: requires a name other than `""`, `.` and `..`. `base.join` resolves those names to the base directory or its parent, where `remove_dir_all` would remove the base itself (`delete("")` then returns success, keeping every key) or act on its parent. Removing the base or its parent is outside the directory model. The callers never pass such names: `handle_remove` deletes a key of the index, and every disk child, as `read_dir` lists it, has an ordinary name (`Fs.OrdinaryNames` in `Disk.Valid`); `handle_new` deletes a name both validators accepted.
- Fs.Disk.RemoveDirAll: requires a name other than `""`, `.` and `..`, for the same reason as `ProjectLibrary.Library.Delete`.
- Fs.Disk.Rename: refuses an existing target. The operating system may replace an empty directory there; that case is not modelled.
- `src/templates.rs` (the `Templates` store) is not part of this model; `add_template` is modelled as storing under the name, overwriting.
- `launch_program` and the Windows Ctrl-C handler in `src/program.rs` are process plumbing; every launch is an outcome parameter.
- Printing, progress spinners and timing; the root command's `handle_list` in `src/commands/root.rs` (printing only), `handle_path`, `handle_edit`, `handle_clear` and the templates `handle_remove`/`handle_list` commands.
- `handle_backup`, `handle_import`, `handle_zen`, `main` and the command-line parser.
- `handle_clone` in `src/commands/root.rs` only loads, builds the options and calls `Library::clone`, which is modelled.
- Several call sites use library or config methods with other signatures than the ones shown (`get_vec`, `get` returning a `Result`, `is_profile_exist`). They are modelled as the shown `get` and as a key lookup in the profiles.
- `Library::new` is re-run by every command; the model passes the library in.
- The `.ignore` file is read through `read_to_string`; its failure is a scan oracle input, and a missing file ignores nothing.
- The temporary file of the templates `handle_new` is its path and the text it holds after the editor exits, both parameters.
- RootCommands.ResolveProjectName: with autocomplete, the exact-match and gate cases are stated through `Autocomplete`; the contract states soundness, not which similar name.
- Autocomplete.Complete: its own contract states only the exact-match case; the others are the lemmas `CompleteIsSound`, `CompleteGate` and `CompleteNothing`.

## Findings

| source | as written | input that shows it | evidently intended | confidence | as-written member | corrected member |
|---|---|---|---|---|---|---|
| src/commands/profiles.rs:125-143 | a confirmed removal is done with `shift_remove` on the loaded configuration, and no `save` follows, so the removal is lost when the command exits | an existing profile `work`, confirmation yes: "Removed." is printed, and the configuration file still holds `work` | save the configuration after removing, as `handle_new` and `handle_set` do | not executed | Profiles.HandleRemove | Profiles.HandleRemoveAndSave |
