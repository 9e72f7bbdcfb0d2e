/** The project library: the insertion-ordered index of the projects found
    in one base directory, built by one scan of that directory and then kept
    in step with it by `create`, `delete` and `rename`. */
module ProjectLibrary {
  import opened Wrappers
  import opened Text
  import opened IndexMaps
  import opened Program
  import Fs

  datatype LibraryError =
    | AlreadyExists
    | DirectoryNotFound
    | PermissionDenied
    | NotADirectory
    | ProjectNotFound
    | InvalidPath
    | CloneFailed(source: ProgramError)
    | InvalidProjectName
    | CustomError(message: string)
    | IoError(kind: Fs.IoErrorKind)

  /** Names that are never projects (compared exactly by the scan and
      ignoring ASCII case by the name validator). */
  const IgnoredNames: seq<string> :=
    [".", "..", "$RECYCLE.BIN", "System Volume Information", "msdownld.tmp", ".Trash-1000", "-"]

  /** The characters a project name may not contain. */
  const InvalidChars: set<char> := {'/', '\\', ':', '*', '?', '"', '<', '>', '|'}

  /** Device names that Windows reserves. */
  const WindowsReserved: seq<string> :=
    [ "CON", "PRN", "AUX", "NUL", "COM1", "COM2", "COM3", "COM4", "COM5", "COM6", "COM7",
      "COM8", "COM9", "LPT1", "LPT2", "LPT3", "LPT4", "LPT5", "LPT6", "LPT7", "LPT8", "LPT9" ]

  /** The reasons the library's name validator gives. */
  datatype NameError = EmptyName | InvalidCharacters | NotAllowed | ReservedOnWindows

  function NameErrorMessage(e: NameError): string {
    match e
    case EmptyName => "Project name cannot be empty."
    case InvalidCharacters => "Project name contains invalid characters."
    case NotAllowed => "This name is not allowed."
    case ReservedOnWindows => "Project name cannot be a reserved name on Windows."
  }

  /** Some word of `words` equals `name` ignoring ASCII case. */
  predicate MatchesIgnoringCase(name: string, words: seq<string>) {
    exists i :: 0 <= i < |words| && EqIgnoreCase(name, words[i])
  }

  /** The library's `validate_project_name`; `windows` selects the build
      that also refuses the reserved device names. */
  function ValidateProjectName(name: string, windows: bool): (r: Outcome<NameError>)
    ensures r == Fail(EmptyName) <==> name == []
    ensures r.Pass? ==> forall i :: 0 <= i < |name| ==> name[i] !in InvalidChars
    ensures r.Pass? ==> forall w :: w in IgnoredNames ==> Lower(name) != Lower(w)
    ensures r.Pass? && windows ==> forall w :: w in WindowsReserved ==> Lower(name) != Lower(w)
    ensures !windows && name != [] && !ContainsAny(name, InvalidChars) && !MatchesIgnoringCase(name, IgnoredNames) ==> r.Pass?
  {
    if name == [] then Fail(EmptyName)
    else if ContainsAny(name, InvalidChars) then Fail(InvalidCharacters)
    else if MatchesIgnoringCase(name, IgnoredNames) then Fail(NotAllowed)
    else if windows && MatchesIgnoringCase(name, WindowsReserved) then Fail(ReservedOnWindows)
    else Pass
  }

  /** The validator does not see ASCII case: a name and its lower case get
      the same verdict. */
  lemma {:induction false} ValidateIgnoresCase(name: string, windows: bool)
    ensures ValidateProjectName(Lower(name), windows) == ValidateProjectName(name, windows)
  {
    var l := Lower(name);
    LowerIdempotent(name);
    assert ContainsAny(l, InvalidChars) <==> ContainsAny(name, InvalidChars) by {
      forall i | 0 <= i < |name| ensures (l[i] in InvalidChars) <==> (name[i] in InvalidChars) {
        assert l[i] == LowerChar(name[i]);
      }
    }
    assert forall w :: EqIgnoreCase(l, w) <==> EqIgnoreCase(name, w);
  }

  /** A name the validator accepts is never one of the names the scan skips,
      so a project created under it is found again by the next scan. */
  lemma AcceptedNameIsNotIgnored(name: string, windows: bool)
    requires ValidateProjectName(name, windows).Pass?
    ensures name !in IgnoredNames
  {
  }

  /** Each check of the validator has its own error. */
  lemma ValidatorExamples()
    ensures ValidateProjectName("", false) == Fail(EmptyName)
    ensures ValidateProjectName("a/b", false) == Fail(InvalidCharacters)
    ensures ValidateProjectName("$recycle.bin", false) == Fail(NotAllowed)
    ensures ValidateProjectName("-", false) == Fail(NotAllowed)
  {
    assert "a/b"[1] in InvalidChars;
    assert EqIgnoreCase("$recycle.bin", IgnoredNames[2]);
    assert EqIgnoreCase("-", IgnoredNames[6]);
  }

  /** A device name is refused on Windows only, whatever its case. */
  lemma ReservedOnlyOnWindows()
    ensures ValidateProjectName("con", true) == Fail(ReservedOnWindows)
    ensures ValidateProjectName("con", false) == Pass
  {
    var con := "con";
    assert !ContainsAny(con, InvalidChars) by {
      forall i | 0 <= i < |con| ensures con[i] !in InvalidChars {
      }
    }
    assert Lower(con) == "con";
    assert EqIgnoreCase(con, WindowsReserved[0]);
    assert !MatchesIgnoringCase(con, IgnoredNames) by {
      forall w | w in IgnoredNames ensures !EqIgnoreCase(con, w) {
        var i :| 0 <= i < |IgnoredNames| && IgnoredNames[i] == w;
        assert Lower(w)[0] != 'c' || |w| != 3;
      }
    }
  }

  // ---------------------------------------------------------------------
  // The scan

  /** One item of the `read_dir` iteration: an entry with its name and the
      outcome of `file_type()` (`None` when that call failed, else whether
      it is a directory), or an error the iterator produced. */
  datatype ListedEntry = Listed(name: string, isDir: Option<bool>) | Unreadable(error: Fs.IoErrorKind)

  /** What reading `.ignore` gives: no such file, its text, or an error. */
  datatype IgnoreFile = NoIgnoreFile | IgnoreText(content: string) | IgnoreUnreadable(error: Fs.IoErrorKind)

  /** The failures the operating system may report during a scan: of
      `read_dir` itself, of the iterator at a given position, of
      `file_type()` at a given position, and of reading `.ignore`. */
  datatype ScanOracle = ScanOracle(
    readDirFault: Option<Fs.IoErrorKind>,
    entryFaults: map<nat, Fs.IoErrorKind>,
    fileTypeFaults: set<nat>,
    ignoreFault: Option<Fs.IoErrorKind>)

  /** The iteration `read_dir` yields over the children of the directory. */
  function Listing(children: seq<Fs.Child>, o: ScanOracle): (r: seq<ListedEntry>)
    ensures |r| == |children|
  {
    seq(|children|, i requires 0 <= i < |children| =>
      if i in o.entryFaults then Unreadable(o.entryFaults[i])
      else Listed(children[i].name, if i in o.fileTypeFaults then None else Some(children[i].kind.Dir?)))
  }

  /** What `read_to_string` of `.ignore` gives, from what the directory holds
      under that name. */
  function IgnoreFileOf(lookup: Option<Fs.Kind>, fault: Option<Fs.IoErrorKind>): IgnoreFile {
    match lookup
    case None => NoIgnoreFile
    case Some(k) =>
      if fault.Some? then IgnoreUnreadable(fault.value)
      else match k
        case Dir => IgnoreUnreadable(Fs.IsADirectory)
        case File(content) => IgnoreText(content)
  }

  /** The error `new` reports when `read_dir` fails. */
  function ClassifyReadDir(k: Fs.IoErrorKind): LibraryError {
    match k
    case NotFound => DirectoryNotFound
    case PermissionDenied => PermissionDenied
    case NotADirectory => NotADirectory
    case _ => IoError(k)
  }

  /** The error reported for a failing iterator entry or `fs::rename`. */
  function ClassifyIo(k: Fs.IoErrorKind): LibraryError {
    if k == Fs.PermissionDenied then PermissionDenied else IoError(k)
  }

  /** The error reported when `fs::create_dir` fails. */
  function ClassifyCreate(k: Fs.IoErrorKind): LibraryError {
    match k
    case AlreadyExists => AlreadyExists
    case PermissionDenied => PermissionDenied
    case _ => IoError(k)
  }

  /** `is_valid_project`: shown (or hidden names allowed), a directory, and
      not exactly one of the ignored names. */
  predicate IsValidProject(name: string, isDir: Option<bool>, displayHidden: bool) {
    (displayHidden || !StartsWith(name, ".")) && isDir == Some(true) && name !in IgnoredNames
  }

  predicate Kept(e: ListedEntry, displayHidden: bool) {
    e.Listed? && IsValidProject(e.name, e.isDir, displayHidden)
  }

  /** What one line of `.ignore` contributes: its trimmed text, unless that
      is blank or a `#` comment. */
  function IgnoreLine(line: string): (r: Option<string>)
    ensures r.Some? ==> r.value != [] && r.value[0] != '#'
    ensures r.Some? ==> !IsWhitespace(r.value[0]) && !IsWhitespace(r.value[|r.value| - 1])
    ensures r.Some? && '\n' !in line ==> '\n' !in r.value
  {
    var t := Trim(line);
    TrimIsInfix(line);
    TrimEnds(line);
    if t != [] && !StartsWith(t, "#") then Some(t) else None
  }

  /** The names the given lines of `.ignore` list. */
  function IgnoredIn(ls: seq<string>): set<string> {
    if ls == [] then {}
    else (match IgnoreLine(ls[0]) case Some(t) => {t} case None => {}) + IgnoredIn(ls[1..])
  }

  /** `get_ignored_paths`: the set of the names its lines list. */
  function IgnoredPaths(content: string): set<string> {
    IgnoredIn(Lines(content))
  }

  /** A name is ignored iff some line of the file lists it. */
  lemma {:induction false} IgnoredInIff(ls: seq<string>, x: string)
    ensures x in IgnoredIn(ls) <==> exists i :: 0 <= i < |ls| && IgnoreLine(ls[i]) == Some(x)
  {
    if ls != [] {
      IgnoredInIff(ls[1..], x);
      assert forall i :: 1 <= i < |ls| ==> ls[i] == ls[1..][i - 1];
    }
  }

  /** Every ignored name is a trimmed, non-blank, non-comment single line. */
  lemma IgnoredPathsShape(content: string, x: string)
    requires x in IgnoredPaths(content)
    ensures x != [] && x[0] != '#' && '\n' !in x
    ensures !IsWhitespace(x[0]) && !IsWhitespace(x[|x| - 1])
  {
    var ls := Lines(content);
    IgnoredInIff(ls, x);
    var i :| 0 <= i < |ls| && IgnoreLine(ls[i]) == Some(x);
  }

  /** The index the scan loop has built after the given entries: entries are
      taken in order, kept ones inserted, and the first iterator error
      aborts the whole scan. */
  function Collected(basePath: string, entries: seq<ListedEntry>, displayHidden: bool): (r: Result<IndexMap<string>, LibraryError>)
    ensures r.Failure? <==> exists i :: 0 <= i < |entries| && entries[i].Unreadable?
    ensures r.Success? ==> Wf(r.value)
    decreases |entries|
  {
    if entries == [] then Success([])
    else
      var n := |entries| - 1;
      var front := entries[..n];
      assert forall i :: 0 <= i < n ==> front[i] == entries[i];
      match Collected(basePath, front, displayHidden)
      case Failure(e) => Failure(e)
      case Success(m) =>
        match entries[n]
        case Unreadable(k) => Failure(ClassifyIo(k))
        case Listed(name, d) =>
          if IsValidProject(name, d, displayHidden) then Success(Insert(m, name, Fs.Join(basePath, name)))
          else Success(m)
  }

  /** Every entry of the scanned index maps a kept directory entry's name to
      `base/name`. */
  lemma {:induction false} CollectedProvenance(basePath: string, entries: seq<ListedEntry>, displayHidden: bool)
    requires Collected(basePath, entries, displayHidden).Success?
    ensures forall e :: e in Collected(basePath, entries, displayHidden).value ==>
      && e.value == Fs.Join(basePath, e.key)
      && exists i :: 0 <= i < |entries| && entries[i] == Listed(e.key, Some(true)) && Kept(entries[i], displayHidden)
    decreases |entries|
  {
    if entries != [] {
      var n := |entries| - 1;
      var front := entries[..n];
      assert forall i :: 0 <= i < n ==> front[i] == entries[i];
      CollectedProvenance(basePath, front, displayHidden);
      var m := Collected(basePath, front, displayHidden).value;
      var r := Collected(basePath, entries, displayHidden).value;
      forall e | e in r
        ensures e.value == Fs.Join(basePath, e.key)
        ensures exists i :: 0 <= i < |entries| && entries[i] == Listed(e.key, Some(true)) && Kept(entries[i], displayHidden)
      {
        if e !in m {
          assert e == Entry(entries[n].name, Fs.Join(basePath, entries[n].name));
          assert entries[n] == Listed(e.key, Some(true));
        } else {
          var i :| 0 <= i < |front| && front[i] == Listed(e.key, Some(true)) && Kept(front[i], displayHidden);
          assert entries[i] == front[i];
        }
      }
    }
  }

  /** Every kept directory entry is a key of the scanned index. */
  lemma {:induction false} CollectedKeepsAll(basePath: string, entries: seq<ListedEntry>, displayHidden: bool)
    requires Collected(basePath, entries, displayHidden).Success?
    ensures forall i :: 0 <= i < |entries| && Kept(entries[i], displayHidden) ==>
      HasKey(Collected(basePath, entries, displayHidden).value, entries[i].name)
    decreases |entries|
  {
    if entries != [] {
      var n := |entries| - 1;
      var front := entries[..n];
      assert forall i :: 0 <= i < n ==> front[i] == entries[i];
      CollectedKeepsAll(basePath, front, displayHidden);
    }
  }

  /** `collect_projects`, from what the operating system reports. */
  function Scan(basePath: string, readDirFault: Option<Fs.IoErrorKind>, entries: seq<ListedEntry>,
                displayHidden: bool, ignore: IgnoreFile): Result<IndexMap<string>, LibraryError>
  {
    if readDirFault.Some? then Failure(ClassifyReadDir(readDirFault.value))
    else
      var m :- Collected(basePath, entries, displayHidden);
      match ignore
      case NoIgnoreFile => Success(m)
      case IgnoreUnreadable(k) => Failure(IoError(k))
      case IgnoreText(content) => Success(RemoveKeys(m, IgnoredPaths(content)))
  }

  /** The names `Scan` drops through the `.ignore` file. */
  function IgnoredBy(ignore: IgnoreFile): set<string> {
    if ignore.IgnoreText? then IgnoredPaths(ignore.content) else {}
  }

  /** The scan of a directory with the given children. */
  function ScanOf(basePath: string, children: seq<Fs.Child>, displayHidden: bool, o: ScanOracle): Result<IndexMap<string>, LibraryError> {
    Scan(basePath, o.readDirFault, Listing(children, o), displayHidden,
         IgnoreFileOf(Fs.LookupIn(children, ".ignore"), o.ignoreFault))
  }

  /** When the scan fails, and with which error. */
  lemma ScanFailure(basePath: string, readDirFault: Option<Fs.IoErrorKind>, entries: seq<ListedEntry>,
                    displayHidden: bool, ignore: IgnoreFile)
    ensures readDirFault.Some? ==> Scan(basePath, readDirFault, entries, displayHidden, ignore) == Failure(ClassifyReadDir(readDirFault.value))
    ensures Scan(basePath, readDirFault, entries, displayHidden, ignore).Failure? <==>
      || readDirFault.Some?
      || (exists i :: 0 <= i < |entries| && entries[i].Unreadable?)
      || ignore.IgnoreUnreadable?
    ensures readDirFault.None? && (forall i :: 0 <= i < |entries| ==> entries[i].Listed?) && ignore.IgnoreUnreadable? ==>
      Scan(basePath, readDirFault, entries, displayHidden, ignore) == Failure(IoError(ignore.error))
  {
  }

  /** The first failing entry decides the error, whatever follows it. */
  lemma {:induction false} FirstEntryErrorWins(basePath: string, entries: seq<ListedEntry>, displayHidden: bool, i: nat)
    requires i < |entries| && entries[i].Unreadable?
    requires forall j :: 0 <= j < i ==> entries[j].Listed?
    ensures Collected(basePath, entries, displayHidden) == Failure(ClassifyIo(entries[i].error))
    decreases |entries|
  {
    var n := |entries| - 1;
    if i < n {
      var front := entries[..n];
      assert forall j :: 0 <= j <= i ==> front[j] == entries[j];
      FirstEntryErrorWins(basePath, front, displayHidden, i);
    } else {
      var front := entries[..n];
      assert forall j :: 0 <= j < n ==> front[j] == entries[j];
      assert Collected(basePath, front, displayHidden).Success?;
    }
  }

  /** A name is a key of a successful scan iff some entry by that name is
      kept and `.ignore` does not list it. */
  lemma ScanMembership(basePath: string, readDirFault: Option<Fs.IoErrorKind>, entries: seq<ListedEntry>,
                       displayHidden: bool, ignore: IgnoreFile, x: string)
    requires Scan(basePath, readDirFault, entries, displayHidden, ignore).Success?
    ensures HasKey(Scan(basePath, readDirFault, entries, displayHidden, ignore).value, x) <==>
      && (exists i :: 0 <= i < |entries| && entries[i].Listed? && entries[i].name == x && Kept(entries[i], displayHidden))
      && x !in IgnoredBy(ignore)
  {
    var m := Collected(basePath, entries, displayHidden).value;
    CollectedProvenance(basePath, entries, displayHidden);
    CollectedKeepsAll(basePath, entries, displayHidden);
    if HasKey(m, x) {
      var j :| 0 <= j < |m| && m[j].key == x;
      assert m[j] in m;
    }
  }

  /** The entries a scan keeps, in enumeration order. */
  function KeptEntries(basePath: string, entries: seq<ListedEntry>, displayHidden: bool): (r: IndexMap<string>)
    ensures forall e :: e in r ==> exists i :: 0 <= i < |entries| && entries[i].Listed? && entries[i].name == e.key
    decreases |entries|
  {
    if entries == [] then []
    else
      var n := |entries| - 1;
      var front := entries[..n];
      assert forall i :: 0 <= i < n ==> front[i] == entries[i];
      var rest := KeptEntries(basePath, front, displayHidden);
      if Kept(entries[n], displayHidden) then rest + [Entry(entries[n].name, Fs.Join(basePath, entries[n].name))]
      else rest
  }

  ghost predicate DistinctNames(entries: seq<ListedEntry>) {
    forall i, j :: 0 <= i < j < |entries| && entries[i].Listed? && entries[j].Listed? ==> entries[i].name != entries[j].name
  }

  /** Without iterator errors, and with the distinct names a directory has,
      the scan loop keeps exactly the kept entries, in enumeration order. */
  lemma {:induction false} CollectedInOrder(basePath: string, entries: seq<ListedEntry>, displayHidden: bool)
    requires forall i :: 0 <= i < |entries| ==> entries[i].Listed?
    requires DistinctNames(entries)
    ensures Collected(basePath, entries, displayHidden) == Success(KeptEntries(basePath, entries, displayHidden))
    decreases |entries|
  {
    if entries != [] {
      var n := |entries| - 1;
      var front := entries[..n];
      assert forall i :: 0 <= i < n ==> front[i] == entries[i];
      CollectedInOrder(basePath, front, displayHidden);
      var rest := KeptEntries(basePath, front, displayHidden);
      if Kept(entries[n], displayHidden) {
        var name := entries[n].name;
        assert !HasKey(rest, name);
      }
    }
  }

  /** What the directory listing of a real directory satisfies. */
  lemma ListingDistinct(children: seq<Fs.Child>, o: ScanOracle)
    requires Fs.UniqueNames(children)
    ensures DistinctNames(Listing(children, o))
  {
  }

  /** Index and directory agree: a well-formed index whose every entry
      maps its name to `base/name`, a directory on the disk. */
  ghost predicate Consistent(basePath: string, children: seq<Fs.Child>, m: IndexMap<string>) {
    && Wf(m)
    && forall i :: 0 <= i < |m| ==>
         m[i].value == Fs.Join(basePath, m[i].key) && Fs.LookupIn(children, m[i].key) == Some(Fs.Dir)
  }

  /** A new directory at the end of the disk, entered at the end of the
      index, keeps the two consistent. */
  lemma ConsistentAfterCreate(basePath: string, cs: seq<Fs.Child>, m: IndexMap<string>, name: string)
    requires Fs.UniqueNames(cs) && Consistent(basePath, cs, m) && Fs.LookupIn(cs, name).None?
    ensures !HasKey(m, name)
    ensures Insert(m, name, Fs.Join(basePath, name)) == m + [Entry(name, Fs.Join(basePath, name))]
    ensures Consistent(basePath, cs + [Fs.Child(name, Fs.Dir)], Insert(m, name, Fs.Join(basePath, name)))
  {
    var c := Fs.Child(name, Fs.Dir);
    var r := Insert(m, name, Fs.Join(basePath, name));
    forall i | 0 <= i < |m| ensures m[i].key != name {
      assert Fs.LookupIn(cs, m[i].key) == Some(Fs.Dir);
    }
    assert !HasKey(m, name);
    forall i | 0 <= i < |r|
      ensures r[i].value == Fs.Join(basePath, r[i].key) && Fs.LookupIn(cs + [c], r[i].key) == Some(Fs.Dir)
    {
      Fs.LookupAfterAppend(cs, c, r[i].key);
      if i < |m| {
        assert r[i] == m[i];
      }
    }
  }

  /** A successful scan is consistent with the directory it scanned. */
  lemma ScanConsistent(basePath: string, children: seq<Fs.Child>, displayHidden: bool, o: ScanOracle)
    requires Fs.UniqueNames(children)
    requires ScanOf(basePath, children, displayHidden, o).Success?
    ensures Consistent(basePath, children, ScanOf(basePath, children, displayHidden, o).value)
  {
    var entries := Listing(children, o);
    var m := Collected(basePath, entries, displayHidden).value;
    var r := ScanOf(basePath, children, displayHidden, o).value;
    CollectedProvenance(basePath, entries, displayHidden);
    forall k | 0 <= k < |r|
      ensures r[k].value == Fs.Join(basePath, r[k].key) && Fs.LookupIn(children, r[k].key) == Some(Fs.Dir)
    {
      assert r[k] in r;
      assert r[k] in m;
      var i :| 0 <= i < |entries| && entries[i] == Listed(r[k].key, Some(true)) && Kept(entries[i], displayHidden);
      assert i !in o.entryFaults && i !in o.fileTypeFaults;
      assert children[i] == Fs.Child(r[k].key, Fs.Dir);
      Fs.LookupInIff(children, r[k].key, Fs.Dir);
    }
  }

  /** `collect_projects`: one pass over the listing, inserting the valid
      projects, then `retain` against the `.ignore` file. */
  method CollectProjects(basePath: string, readDirFault: Option<Fs.IoErrorKind>, entries: seq<ListedEntry>,
                         displayHidden: bool, ignore: IgnoreFile)
    returns (r: Result<IndexMap<string>, LibraryError>)
    ensures r == Scan(basePath, readDirFault, entries, displayHidden, ignore)
  {
    if readDirFault.Some? {
      return Failure(ClassifyReadDir(readDirFault.value));
    }
    var projects: IndexMap<string> := [];
    var i := 0;
    while i < |entries|
      invariant 0 <= i <= |entries|
      invariant Collected(basePath, entries[..i], displayHidden) == Success(projects)
    {
      CollectedStep(basePath, entries, i, displayHidden);
      match entries[i] {
        case Unreadable(k) =>
          FailureExtends(basePath, entries, i + 1, displayHidden);
          return Failure(ClassifyIo(k));
        case Listed(name, d) =>
          if IsValidProject(name, d, displayHidden) {
            projects := Insert(projects, name, Fs.Join(basePath, name));
          }
      }
      i := i + 1;
    }
    assert entries[..i] == entries;
    match ignore
    case NoIgnoreFile =>
      return Success(projects);
    case IgnoreUnreadable(k) =>
      return Failure(IoError(k));
    case IgnoreText(content) =>
      var paths := IgnoredPaths(content);
      return Success(RemoveKeys(projects, paths));
  }

  /** One more entry of the scan loop. */
  lemma CollectedStep(basePath: string, entries: seq<ListedEntry>, i: nat, displayHidden: bool)
    requires i < |entries| && Collected(basePath, entries[..i], displayHidden).Success?
    ensures var m := Collected(basePath, entries[..i], displayHidden).value;
      var e := entries[i];
      Collected(basePath, entries[..i + 1], displayHidden) ==
        if e.Unreadable? then Failure(ClassifyIo(e.error))
        else if IsValidProject(e.name, e.isDir, displayHidden) then Success(Insert(m, e.name, Fs.Join(basePath, e.name)))
        else Success(m)
  {
    assert entries[..i + 1][..i] == entries[..i];
  }

  /** Once the scan of a prefix has failed, no later entry changes the
      error. */
  lemma {:induction false} FailureExtends(basePath: string, entries: seq<ListedEntry>, i: nat, displayHidden: bool)
    requires i <= |entries| && Collected(basePath, entries[..i], displayHidden).Failure?
    ensures Collected(basePath, entries, displayHidden) == Collected(basePath, entries[..i], displayHidden)
    decreases |entries| - i
  {
    if i < |entries| {
      var n := |entries| - 1;
      FailureExtends(basePath, entries[..n], i, displayHidden);
      assert entries[..n][..i] == entries[..i];
    } else {
      assert entries[..i] == entries;
    }
  }

  // ---------------------------------------------------------------------
  // Clone

  /** `CloneOptions`. */
  datatype CloneOptions = CloneOptions(remote: string, branch: Option<string>, name: Option<string>)

  /** The arguments of `git` for a clone: `clone <remote> [<name>] [-b <branch>]`. */
  function CloneArgs(o: CloneOptions): seq<string> {
    ["clone", o.remote]
      + (if o.name.Some? then [o.name.value] else [])
      + (if o.branch.Some? then ["-b", o.branch.value] else [])
  }

  /** Recovers the clone options from the argument list; the list's length
      tells which of the optional parts are present. */
  function ParseCloneArgs(args: seq<string>): Option<CloneOptions> {
    if |args| < 2 || |args| > 5 || args[0] != "clone" then None
    else if |args| == 2 then Some(CloneOptions(args[1], None, None))
    else if |args| == 3 then Some(CloneOptions(args[1], None, Some(args[2])))
    else if |args| == 4 then (if args[2] == "-b" then Some(CloneOptions(args[1], Some(args[3]), None)) else None)
    else if args[3] == "-b" then Some(CloneOptions(args[1], Some(args[4]), Some(args[2])))
    else None
  }

  /** No two clone requests give the same `git` command line. */
  lemma CloneArgsRoundTrip(o: CloneOptions)
    ensures ParseCloneArgs(CloneArgs(o)) == Some(o)
  {
  }

  // ---------------------------------------------------------------------
  // The library

  class Library {
    var projects: IndexMap<string>
    const basePath: string
    const disk: Fs.Disk
    const windows: bool

    ghost predicate Valid()
      reads this, disk
    {
      disk.Valid() && Consistent(basePath, disk.children, projects)
    }

    constructor FromScan(basePath: string, disk: Fs.Disk, windows: bool, projects: IndexMap<string>)
      requires disk.Valid() && Consistent(basePath, disk.children, projects)
      ensures Valid()
      ensures this.basePath == basePath && this.disk == disk && this.windows == windows && this.projects == projects
    {
      this.basePath := basePath;
      this.disk := disk;
      this.windows := windows;
      this.projects := projects;
    }

    /** `Library::new`: a base that is not a directory is refused before it
        is read; otherwise the library holds what the scan found. */
    static method New(basePath: string, disk: Fs.Disk, baseIsDir: bool, displayHidden: bool, o: ScanOracle, windows: bool)
      returns (r: Result<Library, LibraryError>)
      requires disk.Valid()
      ensures !baseIsDir ==> r == Failure(InvalidPath)
      ensures baseIsDir && ScanOf(basePath, disk.children, displayHidden, o).Failure? ==>
        r == Failure(ScanOf(basePath, disk.children, displayHidden, o).error)
      ensures r.Success? <==> baseIsDir && ScanOf(basePath, disk.children, displayHidden, o).Success?
      ensures r.Success? ==>
        && fresh(r.value) && r.value.Valid()
        && r.value.projects == ScanOf(basePath, disk.children, displayHidden, o).value
        && r.value.basePath == basePath && r.value.disk == disk && r.value.windows == windows
    {
      if !baseIsDir {
        return Failure(InvalidPath);
      }
      var entries := Listing(disk.children, o);
      var ignore := IgnoreFileOf(disk.Lookup(".ignore"), o.ignoreFault);
      var scanned := CollectProjects(basePath, o.readDirFault, entries, displayHidden, ignore);
      if scanned.Failure? {
        return Failure(scanned.error);
      }
      ScanConsistent(basePath, disk.children, displayHidden, o);
      var lib := new Library.FromScan(basePath, disk, windows, scanned.value);
      return Success(lib);
    }

    /** `contains`: a name in the index, which is then a directory on disk. */
    predicate Contains(name: string)
      reads this, disk
      ensures Contains(name) <==> Get(name).Some?
      ensures Valid() && Contains(name) ==> disk.Lookup(name) == Some(Fs.Dir)
    {
      HasKey(projects, name)
    }

    /** `get`: the path of a project, always `base/name`. */
    function Get(name: string): (r: Option<string>)
      reads this, disk
      ensures r.Some? <==> HasKey(projects, name)
      ensures Valid() && r.Some? ==> r.value == Fs.Join(basePath, name) && disk.Lookup(name) == Some(Fs.Dir)
    {
      IndexMaps.Get(projects, name)
    }

    /** `get_names`: the keys in index order. */
    function GetNames(): (r: seq<string>)
      reads this
      ensures |r| == |projects| && forall i :: 0 <= i < |r| ==> r[i] == projects[i].key
    {
      Keys(projects)
    }

    /** `get_all`: the whole index, every path `base/name` of a directory. */
    function GetAll(): (r: IndexMap<string>)
      reads this, disk
      ensures Keys(r) == GetNames()
      ensures Valid() ==> forall i :: 0 <= i < |r| ==>
        r[i].value == Fs.Join(basePath, r[i].key) && disk.Lookup(r[i].key) == Some(Fs.Dir)
    {
      projects
    }

    /** `is_empty`. */
    predicate IsEmpty()
      reads this, disk
      ensures IsEmpty() ==> forall x :: !Contains(x)
      ensures !IsEmpty() ==> Contains(GetNames()[0])
    {
      projects == []
    }

    /** `clone`: launches `git clone …` in the base directory, in the
        foreground and not quiet, given how the launch ends. */
    method Clone(opts: CloneOptions, launch: Outcome<ProgramError>) returns (r: Outcome<LibraryError>, launched: LaunchOptions)
      ensures launched == LaunchOptions("git", CloneArgs(opts), Some(basePath), false, false, None)
      ensures launch.Pass? ==> r == Pass
      ensures launch.Fail? ==> r == Fail(CloneFailed(launch.error))
    {
      var args := CloneArguments(opts);
      launched := LaunchOptions("git", args, Some(basePath), false, false, None);
      r := if launch.Pass? then Pass else Fail(CloneFailed(launch.error));
    }

    /** `create`: the existence check comes before the validator, the
        validator's message is wrapped as `CustomError`, and `create_dir`
        errors are classified. Success appends `name -> base/name`. */
    method Create(name: string, fault: Option<Fs.IoErrorKind>) returns (r: Outcome<LibraryError>)
      requires Valid()
      modifies this, disk
      ensures Valid()
      ensures old(disk.Exists(name)) ==> r == Fail(AlreadyExists)
      ensures !old(disk.Exists(name)) && ValidateProjectName(name, windows).Fail? ==>
        r == Fail(CustomError(NameErrorMessage(ValidateProjectName(name, windows).error)))
      ensures !old(disk.Exists(name)) && ValidateProjectName(name, windows).Pass? && fault.Some? ==>
        r == Fail(ClassifyCreate(fault.value))
      ensures r.Pass? <==> !old(disk.Exists(name)) && ValidateProjectName(name, windows).Pass? && fault.None?
      ensures r.Fail? ==> projects == old(projects) && disk.children == old(disk.children)
      ensures r.Pass? ==> projects == old(projects) + [Entry(name, Fs.Join(basePath, name))]
      ensures r.Pass? ==> disk.children == old(disk.children) + [Fs.Child(name, Fs.Dir)]
    {
      if disk.Exists(name) {
        return Fail(AlreadyExists);
      }
      var v := ValidateProjectName(name, windows);
      if v.Fail? {
        return Fail(CustomError(NameErrorMessage(v.error)));
      }
      ghost var before := disk.children;
      var made := disk.CreateDir(name, fault);
      if made.Fail? {
        return Fail(ClassifyCreate(made.error));
      }
      ConsistentAfterCreate(basePath, before, projects, name);
      projects := Insert(projects, name, Fs.Join(basePath, name));
      return Pass;
    }

    /** `delete`: removes the directory (it need not be in the index), then
        retains every other key. */
    method Delete(name: string, fault: Option<Fs.IoErrorKind>) returns (r: Outcome<LibraryError>)
      requires Valid()
      requires !Fs.NamesBaseOrParent(name)
      modifies this, disk
      ensures Valid()
      ensures fault.Some? ==> r == Fail(IoError(fault.value))
      ensures fault.None? && old(disk.Lookup(name)).None? ==> r == Fail(IoError(Fs.NotFound))
      ensures fault.None? && old(disk.Lookup(name)).Some? && old(disk.Lookup(name)).value.File? ==> r == Fail(IoError(Fs.NotADirectory))
      ensures r.Pass? <==> fault.None? && old(disk.Lookup(name)) == Some(Fs.Dir)
      ensures r.Fail? ==> projects == old(projects) && disk.children == old(disk.children)
      ensures r.Pass? ==> projects == RemoveKeys(old(projects), {name})
      ensures r.Pass? ==> disk.children == Fs.RemoveChild(old(disk.children), name)
    {
      ghost var before := disk.children;
      var removed := disk.RemoveDirAll(name, fault);
      if removed.Fail? {
        return Fail(IoError(removed.error));
      }
      var kept := RemoveKeys(projects, {name});
      forall i | 0 <= i < |kept|
        ensures kept[i].value == Fs.Join(basePath, kept[i].key) && Fs.LookupIn(disk.children, kept[i].key) == Some(Fs.Dir)
      {
        assert kept[i] in kept;
        assert HasKey(kept, kept[i].key);
        var j :| 0 <= j < |projects| && projects[j] == kept[i];
        Fs.LookupAfterRemove(before, name, kept[i].key);
      }
      projects := kept;
      return Pass;
    }

    /** `rename`: the index checks come first (the old name must be a key,
        the new one must not be), then the validator, then `fs::rename`.
        Success does `swap_remove` of the old key and appends the new one. */
    method Rename(oldName: string, newName: string, fault: Option<Fs.IoErrorKind>) returns (r: Outcome<LibraryError>)
      requires Valid()
      modifies this, disk
      ensures Valid()
      ensures !HasKey(old(projects), oldName) ==> r == Fail(ProjectNotFound)
      ensures HasKey(old(projects), oldName) && HasKey(old(projects), newName) ==> r == Fail(AlreadyExists)
      ensures HasKey(old(projects), oldName) && !HasKey(old(projects), newName) && ValidateProjectName(newName, windows).Fail? ==>
        r == Fail(CustomError(NameErrorMessage(ValidateProjectName(newName, windows).error)))
      ensures HasKey(old(projects), oldName) && !HasKey(old(projects), newName) && ValidateProjectName(newName, windows).Pass? && fault.Some? ==>
        r == Fail(ClassifyIo(fault.value))
      ensures HasKey(old(projects), oldName) && !HasKey(old(projects), newName) && ValidateProjectName(newName, windows).Pass? &&
              fault.None? && old(disk.Exists(newName)) ==>
        r == Fail(IoError(old(disk.RenameTargetError(newName))))
      ensures r.Pass? <==>
        && HasKey(old(projects), oldName) && !HasKey(old(projects), newName)
        && ValidateProjectName(newName, windows).Pass? && fault.None? && !old(disk.Exists(newName))
      ensures r.Fail? ==> projects == old(projects) && disk.children == old(disk.children)
      ensures r.Pass? ==> projects == Insert(SwapRemove(old(projects), oldName), newName, Fs.Join(basePath, newName))
      ensures r.Pass? ==> disk.children == Fs.RenameChild(old(disk.children), oldName, newName)
    {
      if !HasKey(projects, oldName) {
        return Fail(ProjectNotFound);
      }
      if HasKey(projects, newName) {
        return Fail(AlreadyExists);
      }
      var v := ValidateProjectName(newName, windows);
      if v.Fail? {
        return Fail(CustomError(NameErrorMessage(v.error)));
      }
      ghost var before := disk.children;
      var i :| 0 <= i < |projects| && projects[i].key == oldName;
      assert Fs.LookupIn(before, oldName) == Some(Fs.Dir);
      var moved := disk.Rename(oldName, newName, fault);
      if moved.Fail? {
        return Fail(ClassifyIo(moved.error));
      }
      RenameConsistent(basePath, before, projects, oldName, newName, i);
      var next := Insert(SwapRemove(projects, oldName), newName, Fs.Join(basePath, newName));
      projects := next;
      return Pass;
    }
  }

  /** `clone`'s argument vector, built by pushing onto `["clone", remote]`. */
  method CloneArguments(opts: CloneOptions) returns (args: seq<string>)
    ensures args == CloneArgs(opts)
  {
    args := ["clone", opts.remote];
    if opts.name.Some? {
      args := args + [opts.name.value];
    }
    if opts.branch.Some? {
      args := args + ["-b"];
      args := args + [opts.branch.value];
    }
  }

  /** A rename that both the index and the disk allowed keeps them
      consistent. */
  lemma RenameConsistent(basePath: string, cs: seq<Fs.Child>, m: IndexMap<string>, oldName: string, newName: string, i: nat)
    requires Fs.UniqueNames(cs) && Consistent(basePath, cs, m)
    requires i < |m| && m[i].key == oldName && !HasKey(m, newName) && Fs.LookupIn(cs, newName).None?
    ensures Consistent(basePath, Fs.RenameChild(cs, oldName, newName), Insert(SwapRemove(m, oldName), newName, Fs.Join(basePath, newName)))
  {
    SwapRemoveProperties(m, oldName, i);
    var kept := SwapRemove(m, oldName);
    var next := Insert(kept, newName, Fs.Join(basePath, newName));
    assert next == kept + [Entry(newName, Fs.Join(basePath, newName))];
    var after := Fs.RenameChild(cs, oldName, newName);
    forall k | 0 <= k < |next|
      ensures next[k].value == Fs.Join(basePath, next[k].key) && Fs.LookupIn(after, next[k].key) == Some(Fs.Dir)
    {
      Fs.LookupAfterRename(cs, oldName, newName, next[k].key);
      if k < |kept| {
        var j := if k == i then |m| - 1 else k;
        assert kept[k] == m[j];
      }
    }
  }

  /** What `rename` does to the order: the moved name goes to the end, the
      former last entry fills the old slot, all else stays. */
  lemma RenameReorders(m: IndexMap<string>, oldName: string, newName: string, p: string, i: nat)
    requires Wf(m) && i < |m| && m[i].key == oldName && !HasKey(m, newName)
    ensures var r := Insert(SwapRemove(m, oldName), newName, p);
      && Wf(r)
      && |r| == |m|
      && r[|r| - 1] == Entry(newName, p)
      && (i < |m| - 1 ==> r[i] == m[|m| - 1])
      && (forall j :: 0 <= j < |m| - 1 && j != i ==> r[j] == m[j])
      && (forall x :: HasKey(r, x) <==> (HasKey(m, x) && x != oldName) || x == newName)
  {
    SwapRemoveProperties(m, oldName, i);
  }

  /** The library scenario of a second `create` of the same name: after a
      successful create the name is a key, the same name exists on disk, and
      so the next create fails with `AlreadyExists`. */
  lemma SecondCreateFails(lib: Library, name: string)
    requires lib.Valid() && lib.Contains(name)
    ensures lib.disk.Exists(name)
  {
  }

  /** The hidden-projects scenario: a dot-name is skipped unless hidden
      names are shown, and the kept names come in directory order. */
  lemma HiddenProjectsExample(base: string)
    ensures var cs := [Fs.Child("visible_project", Fs.Dir), Fs.Child(".hidden_project", Fs.Dir)];
      var o := ScanOracle(None, map[], {}, None);
      && ScanOf(base, cs, false, o) == Success([Entry("visible_project", Fs.Join(base, "visible_project"))])
      && ScanOf(base, cs, true, o) ==
           Success([Entry("visible_project", Fs.Join(base, "visible_project")), Entry(".hidden_project", Fs.Join(base, ".hidden_project"))])
  {
    var cs := [Fs.Child("visible_project", Fs.Dir), Fs.Child(".hidden_project", Fs.Dir)];
    var o := ScanOracle(None, map[], {}, None);
    var entries := Listing(cs, o);
    assert entries == [Listed("visible_project", Some(true)), Listed(".hidden_project", Some(true))];
    assert Fs.LookupIn(cs, ".ignore") == None;
    ListingDistinct(cs, o);
    CollectedInOrder(base, entries, false);
    CollectedInOrder(base, entries, true);
    HiddenKept(base, entries);
  }

  lemma HiddenKept(base: string, entries: seq<ListedEntry>)
    requires entries == [Listed("visible_project", Some(true)), Listed(".hidden_project", Some(true))]
    ensures KeptEntries(base, entries, false) == [Entry("visible_project", Fs.Join(base, "visible_project"))]
    ensures KeptEntries(base, entries, true) ==
      [Entry("visible_project", Fs.Join(base, "visible_project")), Entry(".hidden_project", Fs.Join(base, ".hidden_project"))]
  {
    var front := entries[..1];
    assert front == [Listed("visible_project", Some(true))];
    assert front[..0] == [];
    assert KeptEntries(base, [], false) == [] && KeptEntries(base, [], true) == [];
    assert StartsWith(".hidden_project", ".") by { assert ".hidden_project"[..1] == "."; }
    assert !StartsWith("visible_project", ".") by {
      assert "visible_project"[0] == 'v';
      assert "visible_project"[..1][0] != "."[0];
    }
    assert "visible_project" !in IgnoredNames;
    assert ".hidden_project" !in IgnoredNames;
    assert Kept(front[0], false) && Kept(front[0], true);
    assert KeptEntries(base, front, false) == [Entry("visible_project", Fs.Join(base, "visible_project"))];
    assert KeptEntries(base, front, true) == [Entry("visible_project", Fs.Join(base, "visible_project"))];
  }

  /** Errors that are not singled out are reported as I/O errors. */
  lemma ClassificationExamples()
    ensures ClassifyReadDir(Fs.NotFound) == DirectoryNotFound && ClassifyReadDir(Fs.Other) == IoError(Fs.Other)
    ensures ClassifyCreate(Fs.AlreadyExists) == AlreadyExists && ClassifyCreate(Fs.NotFound) == IoError(Fs.NotFound)
    ensures ClassifyIo(Fs.PermissionDenied) == PermissionDenied && ClassifyIo(Fs.NotADirectory) == IoError(Fs.NotADirectory)
  {
  }

  /** `.ignore` lines are trimmed, and comment and blank lines dropped: a
      file whose lines are `a`, `#x`, a blank line and ` b` ignores `a` and
      `b`. */
  lemma IgnoredPathsOfLines(c: string)
    requires Lines(c) == ["a", "#x", "", " b"]
    ensures IgnoredPaths(c) == {"a", "b"}
  {
    TrimExamples();
    assert !StartsWith("a", "#") by { assert "a"[0] == 'a'; assert "a"[..1][0] != "#"[0]; }
    assert !StartsWith("b", "#") by { assert "b"[0] == 'b'; assert "b"[..1][0] != "#"[0]; }
    assert StartsWith("#x", "#") by { assert "#x"[..1] == "#"; }
    var ls := Lines(c);
    assert IgnoreLine("a") == Some("a") && IgnoreLine("#x") == None;
    assert IgnoreLine("") == None && IgnoreLine(" b") == Some("b");
    assert ls[1..][1..][1..][1..] == [];
    assert IgnoredIn(ls[1..][1..][1..]) == {"b"};
    assert IgnoredIn(ls[1..][1..]) == {"b"};
    assert IgnoredIn(ls[1..]) == {"b"};
  }
}
