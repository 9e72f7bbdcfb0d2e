/** The file system as the library sees it: the projects directory, held as
    the ordered list of its direct children (the order in which `read_dir`
    enumerates them), and the operating-system calls the library makes on it.
    Every call also takes a `fault`: when it is `Some(k)` the operating system
    reports error kind `k` and nothing changes, which stands for every failure
    the abstract directory cannot predict (permissions, races, full disks). */
module Fs {
  import opened Wrappers

  /** The `std::io::ErrorKind` values the program distinguishes, plus the
      ones the abstract directory itself produces. */
  datatype IoErrorKind =
    | NotFound
    | PermissionDenied
    | NotADirectory
    | IsADirectory
    | AlreadyExists
    | DirectoryNotEmpty
    | Interrupted
    | Other

  datatype Kind = Dir | File(content: string)

  datatype Child = Child(name: string, kind: Kind)

  /** `base.join(name)` for a single path component. */
  function Join(base: string, name: string): string {
    base + "/" + name
  }

  /** Two children of one base have different paths. */
  lemma JoinInjective(base: string, a: string, b: string)
    requires Join(base, a) == Join(base, b)
    ensures a == b
  {
    assert a == Join(base, a)[|base| + 1..];
  }

  /** Names that `base.join(name)` resolves to the base itself or to its
      parent: both exist while the base does. */
  predicate NamesBaseOrParent(name: string) {
    name == "" || name == "." || name == ".."
  }

  /** `read_dir` never lists the base or its parent, so no child is named
      like them. */
  ghost predicate OrdinaryNames(cs: seq<Child>) {
    forall c :: c in cs ==> !NamesBaseOrParent(c.name)
  }

  ghost predicate UniqueNames(cs: seq<Child>) {
    forall i, j :: 0 <= i < j < |cs| ==> cs[i].name != cs[j].name
  }

  function LookupIn(cs: seq<Child>, name: string): (r: Option<Kind>)
    ensures r.Some? <==> exists i :: 0 <= i < |cs| && cs[i].name == name
    ensures UniqueNames(cs) ==> forall i :: 0 <= i < |cs| && cs[i].name == name ==> r == Some(cs[i].kind)
  {
    if cs == [] then None
    else if cs[0].name == name then Some(cs[0].kind)
    else
      var r := LookupIn(cs[1..], name);
      assert forall i :: 1 <= i < |cs| ==> cs[i] == cs[1..][i - 1];
      r
  }

  /** With unique names, looking a name up finds exactly the child that
      carries it. */
  lemma LookupInIff(cs: seq<Child>, x: string, k: Kind)
    requires UniqueNames(cs)
    ensures LookupIn(cs, x) == Some(k) <==> Child(x, k) in cs
  {
    if Child(x, k) in cs {
      var i :| 0 <= i < |cs| && cs[i] == Child(x, k);
      assert cs[i].name == x;
    }
  }

  /** A child with a new name, added at the end, is found; the others are
      looked up as before. */
  lemma LookupAfterAppend(cs: seq<Child>, c: Child, x: string)
    requires UniqueNames(cs) && LookupIn(cs, c.name).None?
    ensures UniqueNames(cs + [c])
    ensures LookupIn(cs + [c], x) == if x == c.name then Some(c.kind) else LookupIn(cs, x)
  {
    var r := cs + [c];
    assert r[|cs|] == c;
    if x != c.name && LookupIn(cs, x).Some? {
      var i :| 0 <= i < |cs| && cs[i].name == x;
      assert r[i] == cs[i];
    }
  }

  /** Removing one child does not change what the other names find. */
  lemma LookupAfterRemove(cs: seq<Child>, name: string, x: string)
    requires UniqueNames(cs) && x != name
    ensures LookupIn(RemoveChild(cs, name), x) == LookupIn(cs, x)
  {
    var r := RemoveChild(cs, name);
    match LookupIn(cs, x)
    case None =>
    case Some(k) =>
      LookupInIff(cs, x, k);
      LookupInIff(r, x, k);
  }

  /** The children without the one called `name`, the others in order. */
  function RemoveChild(cs: seq<Child>, name: string): (r: seq<Child>)
    ensures forall c :: c in r <==> c in cs && c.name != name
    ensures UniqueNames(cs) ==> UniqueNames(r)
  {
    if cs == [] then []
    else
      var tail := RemoveChild(cs[1..], name);
      assert forall c :: c in cs <==> c == cs[0] || c in cs[1..] by {
        assert cs == [cs[0]] + cs[1..];
      }
      if cs[0].name == name then
        assert UniqueNames(cs) ==> UniqueNames(tail) by {
          if UniqueNames(cs) { UniqueTail(cs); }
        }
        tail
      else
        assert UniqueNames(cs) ==> UniqueNames([cs[0]] + tail) by {
          if UniqueNames(cs) {
            UniqueTail(cs);
            UniqueCons(cs[0], tail);
          }
        }
        [cs[0]] + tail
  }

  lemma UniqueTail(cs: seq<Child>)
    requires cs != [] && UniqueNames(cs)
    ensures UniqueNames(cs[1..])
    ensures forall c :: c in cs[1..] ==> c.name != cs[0].name
  {
    forall c | c in cs[1..] ensures c.name != cs[0].name {
      var j :| 0 <= j < |cs[1..]| && cs[1..][j] == c;
      assert cs[j + 1] == c;
    }
  }

  lemma UniqueCons(c: Child, t: seq<Child>)
    requires UniqueNames(t) && forall x :: x in t ==> x.name != c.name
    ensures UniqueNames([c] + t)
  {
    var r := [c] + t;
    forall i, j | 0 <= i < j < |r| ensures r[i].name != r[j].name {
      if i == 0 {
        assert r[j] == t[j - 1];
      } else {
        assert r[i] == t[i - 1] && r[j] == t[j - 1];
      }
    }
  }

  /** Removing a child that was just appended gives back the children
      before the append. */
  lemma {:induction false} RemoveAppendedChild(cs: seq<Child>, c: Child)
    requires LookupIn(cs, c.name).None?
    ensures RemoveChild(cs + [c], c.name) == cs
  {
    if cs == [] {
      assert [c][1..] == [];
    } else {
      var s := cs + [c];
      assert s[0] == cs[0] && s[1..] == cs[1..] + [c];
      assert cs[0].name != c.name;
      assert LookupIn(cs[1..], c.name).None?;
      RemoveAppendedChild(cs[1..], c);
      assert RemoveChild(s, c.name) == [cs[0]] + RemoveChild(s[1..], c.name);
      assert cs == [cs[0]] + cs[1..];
    }
  }

  /** The children with the one called `from` renamed to `to`, in its slot. */
  function RenameChild(cs: seq<Child>, from: string, to: string): (r: seq<Child>)
    ensures |r| == |cs|
    ensures forall i :: 0 <= i < |cs| ==> r[i] == if cs[i].name == from then Child(to, cs[i].kind) else cs[i]
  {
    seq(|cs|, i requires 0 <= i < |cs| => if cs[i].name == from then Child(to, cs[i].kind) else cs[i])
  }

  lemma LookupAfterRename(cs: seq<Child>, from: string, to: string, x: string)
    requires UniqueNames(cs) && LookupIn(cs, from).Some? && LookupIn(cs, to).None?
    ensures UniqueNames(RenameChild(cs, from, to))
    ensures LookupIn(RenameChild(cs, from, to), x) ==
      if x == to then LookupIn(cs, from) else if x == from then None else LookupIn(cs, x)
  {
    var r := RenameChild(cs, from, to);
    var i :| 0 <= i < |cs| && cs[i].name == from;
    forall a, b | 0 <= a < b < |r| ensures r[a].name != r[b].name {
      if a != i && b != i {
        assert cs[a].name != cs[b].name;
      }
    }
    if x == to {
      assert r[i].name == to;
    } else if x != from {
      if LookupIn(cs, x).Some? {
        var j :| 0 <= j < |cs| && cs[j].name == x;
        assert r[j] == cs[j];
      }
    }
  }

  /** The projects directory. */
  class Disk {
    var children: seq<Child>

    ghost predicate Valid()
      reads this
    {
      UniqueNames(children) && OrdinaryNames(children)
    }

    constructor (children: seq<Child>)
      requires UniqueNames(children) && OrdinaryNames(children)
      ensures Valid() && this.children == children
    {
      this.children := children;
    }

    /** What `base/name` is, when `name` is a direct child. */
    function Lookup(name: string): Option<Kind>
      reads this
    {
      LookupIn(children, name)
    }

    /** `Path::exists` of `base/name`. */
    predicate Exists(name: string)
      reads this
    {
      NamesBaseOrParent(name) || Lookup(name).Some?
    }

    /** `fs::create_dir(base/name)`: a new empty directory at the end of
        the enumeration order. */
    method CreateDir(name: string, fault: Option<IoErrorKind>) returns (r: Outcome<IoErrorKind>)
      requires Valid()
      modifies this
      ensures Valid()
      ensures fault.Some? ==> r == Fail(fault.value)
      ensures fault.None? && old(Exists(name)) ==> r == Fail(AlreadyExists)
      ensures r.Pass? <==> fault.None? && !old(Exists(name))
      ensures r.Fail? ==> children == old(children)
      ensures r.Pass? ==> children == old(children) + [Child(name, Dir)]
    {
      if fault.Some? {
        return Fail(fault.value);
      }
      if Exists(name) {
        return Fail(AlreadyExists);
      }
      children := children + [Child(name, Dir)];
      return Pass;
    }

    /** `fs::remove_dir_all(base/name)`: the directory and all it holds go;
        a plain file is refused. */
    method RemoveDirAll(name: string, fault: Option<IoErrorKind>) returns (r: Outcome<IoErrorKind>)
      requires Valid()
      requires !NamesBaseOrParent(name)
      modifies this
      ensures Valid()
      ensures fault.Some? ==> r == Fail(fault.value)
      ensures fault.None? && old(Lookup(name)).None? ==> r == Fail(NotFound)
      ensures fault.None? && old(Lookup(name)).Some? && old(Lookup(name)).value.File? ==> r == Fail(NotADirectory)
      ensures r.Pass? <==> fault.None? && old(Lookup(name)) == Some(Dir)
      ensures r.Fail? ==> children == old(children)
      ensures r.Pass? ==> children == RemoveChild(old(children), name)
    {
      if fault.Some? {
        return Fail(fault.value);
      }
      match Lookup(name)
      case None =>
        return Fail(NotFound);
      case Some(File(_)) =>
        return Fail(NotADirectory);
      case Some(Dir) =>
        children := RemoveChild(children, name);
        return Pass;
    }

    /** The error `fs::rename` reports for an existing target: a plain file
        is not a directory, and a directory, like the base or its parent, is
        not empty. */
    function RenameTargetError(to: string): IoErrorKind
      reads this
    {
      if Lookup(to).Some? && Lookup(to).value.File? then NotADirectory else DirectoryNotEmpty
    }

    /** `fs::rename(base/from, base/to)`. Renaming onto itself does nothing;
        an existing target is refused. */
    method Rename(from: string, to: string, fault: Option<IoErrorKind>) returns (r: Outcome<IoErrorKind>)
      requires Valid()
      modifies this
      ensures Valid()
      ensures fault.Some? ==> r == Fail(fault.value)
      ensures fault.None? && old(Lookup(from)).None? ==> r == Fail(NotFound)
      ensures fault.None? && old(Lookup(from)).Some? && from != to && old(Exists(to)) ==> r == Fail(old(RenameTargetError(to)))
      ensures r.Pass? <==> fault.None? && old(Lookup(from)).Some? && (from == to || !old(Exists(to)))
      ensures r.Fail? || from == to ==> children == old(children)
      ensures r.Pass? && from != to ==> children == RenameChild(old(children), from, to)
    {
      if fault.Some? {
        return Fail(fault.value);
      }
      if Lookup(from).None? {
        return Fail(NotFound);
      }
      if from == to {
        return Pass;
      }
      if Exists(to) {
        return Fail(RenameTargetError(to));
      }
      LookupAfterRename(children, from, to, to);
      children := RenameChild(children, from, to);
      return Pass;
    }
  }
}
