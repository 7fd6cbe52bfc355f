/** The earlier navigator of `scripts/Step3.py`: paths with several components,
    absolute or relative, resolved against a snapshot in which directories are
    dicts and files are stored as `None`.

    The model keeps the code's own behaviour: resolution always walks from the
    root, `..` never moves the walk, and `cd` stores the components it was given,
    `..` included. */
module Step3Vfs {
  import opened Wrappers
  import opened PyStrings

  /** A value of the snapshot: a dict of children, or `None` (how every file is stored). */
  datatype PyNode = Dict(children: map<string, PyNode>) | PyNone

  /** The snapshot's root is always a dict. */
  type DictNode = n: PyNode | n.Dict? witness Dict(map[])

  /** The two exceptions `ls` and `cd` raise. */
  datatype Error = NotFound | NotADirectory

  /** The text each exception carries. */
  function Message(e: Error): string
  {
    match e
    case NotFound => "путь не найден"
    case NotADirectory => "не директория"
  }

  /** What `ls` returns: sorted names, or the one-element list `[None]`. */
  datatype LsResult = Names(names: seq<string>) | NoneEntry

  // ---------------------------------------------------------------------------
  // Splitting a path into components.
  // ---------------------------------------------------------------------------

  /** `_split_components`: an absolute path loses its slashes at both ends and its
      empty components; a relative path loses its empty and `.` components. */
  function SplitComponents(path: string): (r: (bool, seq<string>))
    ensures r.0 <==> StartsWith(path, "/")
    ensures WellFormed(r.1)
    ensures !r.0 ==> "." !in r.1
    ensures path == "/" ==> r.1 == []
  {
    if StartsWith(path, "/") then
      var pieces := Split(Strip(path, {'/'}), '/');
      var comps := Keep(pieces, {""});
      KeptComponents(pieces, {""});
      RootHasNoComponents();
      (true, comps)
    else
      var pieces := Split(path, '/');
      var comps := Keep(pieces, {"", "."});
      KeptComponents(pieces, {"", "."});
      (false, comps)
  }

  /** Dropping the empty pieces of a split leaves components a `cd` can store. */
  lemma KeptComponents(pieces: seq<string>, drop: set<string>)
    requires "" in drop
    requires forall k :: 0 <= k < |pieces| ==> '/' !in pieces[k]
    ensures WellFormed(Keep(pieces, drop))
  {
    var comps := Keep(pieces, drop);
    forall k | 0 <= k < |comps|
      ensures comps[k] != "" && '/' !in comps[k]
    {
      assert comps[k] in comps;
      var j :| 0 <= j < |pieces| && pieces[j] == comps[k];
    }
  }

  /** `"/"` strips to `""`, which splits into `[""]`, which leaves no component. */
  lemma RootHasNoComponents()
    ensures Keep(Split(Strip("/", {'/'}), '/'), {""}) == []
  {
    StripAllOf("/", {'/'});
    assert Split("", '/') == [""];
    assert Keep([""], {""}) == [] + Keep([], {""});
  }

  /** Components a `cd` can store: none empty, none holding a slash (`..` allowed). */
  predicate WellFormed(names: seq<string>)
  {
    forall k :: 0 <= k < |names| ==> names[k] != "" && '/' !in names[k]
  }

  // ---------------------------------------------------------------------------
  // Resolution.
  // ---------------------------------------------------------------------------

  /** `dict.get`: the child, or `None` when the key is missing. */
  function Get(children: map<string, PyNode>, name: string): PyNode
  {
    if name in children then children[name] else PyNone
  }

  /** The rest of `_resolve`'s loop from `node` with components `rest` still to
      go; `all` is the full component list, returned as the remainder on failure. */
  function WalkLoop(node: PyNode, rest: seq<string>, all: seq<string>): (r: (PyNode, seq<string>))
    ensures r.1 == [] || r.1 == all
    ensures !r.0.PyNone? ==> r.1 == []
    decreases |rest|
  {
    if rest == [] then (node, [])
    else if rest[0] == ".." then WalkLoop(node, rest[1..], all)
    else if !node.Dict? then (PyNone, all)
    else
      var next := Get(node.children, rest[0]);
      if next.PyNone? then (PyNone, all) else WalkLoop(next, rest[1..], all)
  }

  /** `_resolve(path)`: the node reached and the remainder. */
  function ResolvePath(root: DictNode, path: string): (r: (PyNode, seq<string>))
    ensures r.1 == [] || r.1 == SplitComponents(path).1
    ensures !r.0.PyNone? ==> r.1 == []
  {
    if path == "" || path == "." then (root, [])
    else
      var (_, comps) := SplitComponents(path);
      WalkLoop(root, comps, comps)
  }

  /** An independent reading of a component list: follow each name through
      dicts; a missing name, or one bound to `None`, ends in `None`. */
  function Lookup(node: PyNode, names: seq<string>): (r: PyNode)
    ensures names != [] && !r.PyNone? ==> node.Dict? && names[0] in node.children
  {
    if names == [] then node
    else match node
      case PyNone => PyNone
      case Dict(children) =>
        if names[0] in children then Lookup(children[names[0]], names[1..]) else PyNone
  }

  /** The node a path names for `_resolve`: the root for `""` and `"."`, otherwise
      its components read from the root with every `..` discarded. */
  function Target(root: DictNode, path: string): (r: PyNode)
    ensures path == "" || path == "." || path == "/" ==> r == root
  {
    if path == "" || path == "." then root
    else Lookup(root, Keep(SplitComponents(path).1, {".."}))
  }

  /** `ls(path)` as the code is written, including its `[None]` branch. */
  function ListAt(root: DictNode, path: string): (r: Result<LsResult, Error>)
    ensures r.Err? ==> r.error == NotFound
    ensures r.Ok? && r.value.Names? ==> StrictlySorted(r.value.names)
  {
    var (node, _) := ResolvePath(root, path);
    if node.PyNone? then Err(NotFound)
    else if !node.Dict? then Ok(NoneEntry)
    else Ok(Names(SortedSet(node.children.Keys)))
  }

  /** `cd(path)` as the code is written: the new component list, or the exception. */
  function ChangeDir(root: DictNode, cwd: seq<string>, path: string): (r: Result<seq<string>, Error>)
    ensures path == "" || path == "." ==> r == Ok(cwd)
    ensures r.Ok? && !StartsWith(path, "/") ==> cwd <= r.value
    ensures r.Ok? && WellFormed(cwd) ==> WellFormed(r.value)
  {
    if path == "" || path == "." then Ok(cwd)
    else
      var (node, _) := ResolvePath(root, path);
      if node.PyNone? then Err(NotFound)
      else if !node.Dict? then Err(NotADirectory)
      else
        var (absolute, comps) := SplitComponents(path);
        Ok(if absolute then comps else cwd + comps)
  }

  // ---------------------------------------------------------------------------
  // Properties of splitting and resolution.
  // ---------------------------------------------------------------------------

  /** `""`, `"."` and `"/"` all resolve to the root with nothing left over. */
  lemma ResolveTrivialPaths(root: DictNode)
    ensures ResolvePath(root, "") == (root, [])
    ensures ResolvePath(root, ".") == (root, [])
    ensures ResolvePath(root, "/") == (root, [])
  {
    assert SplitComponents("/").1 == [];
  }

  lemma LookupOfNone(names: seq<string>)
    ensures Lookup(PyNone, names) == PyNone
  {
  }

  /** From a dict, the loop fails exactly when `Lookup` of the components without
      `..` gives `None`, returning all components; otherwise it returns that node
      and no remainder. */
  lemma {:induction false} WalkLoopIsLookup(node: PyNode, rest: seq<string>, all: seq<string>)
    requires node.Dict?
    ensures var n := Lookup(node, Keep(rest, {".."}));
            WalkLoop(node, rest, all) == if n.PyNone? then (PyNone, all) else (n, [])
  {
    if rest != [] {
      assert Keep(rest, {".."}) == (if rest[0] in {".."} then [] else [rest[0]]) + Keep(rest[1..], {".."});
      if rest[0] == ".." {
        assert Keep(rest, {".."}) == Keep(rest[1..], {".."});
        WalkLoopIsLookup(node, rest[1..], all);
      } else {
        var tail := Keep(rest[1..], {".."});
        assert Keep(rest, {".."}) == [rest[0]] + tail;
        assert ([rest[0]] + tail)[1..] == tail;
        var next := Get(node.children, rest[0]);
        if next.PyNone? {
          LookupOfNone(tail);
        } else {
          WalkLoopIsLookup(next, rest[1..], all);
        }
      }
    }
  }

  /** `_resolve` reaches exactly `Target`: it walks from the root whether or not
      the path is absolute, and `..` components never move it. */
  lemma ResolveReachesTarget(root: DictNode, path: string)
    ensures ResolvePath(root, path).0 == Target(root, path)
  {
    if path != "" && path != "." {
      var comps := SplitComponents(path).1;
      WalkLoopIsLookup(root, comps, comps);
    }
  }

  /** Resolving a component list gives what resolving it with every `..` removed gives. */
  lemma ResolveDropsParents(root: DictNode, path: string)
    requires path != "" && path != "."
    ensures var comps := SplitComponents(path).1;
            ResolvePath(root, path) == WalkLoop(root, Keep(comps, {".."}), comps)
  {
    var comps := SplitComponents(path).1;
    var kept := Keep(comps, {".."});
    WalkLoopIsLookup(root, comps, comps);
    WalkLoopIsLookup(root, kept, comps);
    assert forall k :: 0 <= k < |kept| ==> kept[k] in kept;
    KeepNothingDropped(kept, {".."});
  }

  /** `_resolve` succeeds exactly when it returns a dict, and then with an empty
      remainder; on failure it returns `None` and every component. */
  lemma ResolveOutcome(root: DictNode, path: string)
    ensures var (node, rem) := ResolvePath(root, path);
            (node.Dict? <==> rem == [])
            && (node.PyNone? && path != "" && path != "." ==> rem == SplitComponents(path).1)
  {
    if path != "" && path != "." {
      var comps := SplitComponents(path).1;
      WalkLoopIsLookup(root, comps, comps);
      if comps == [] {
        assert Keep(comps, {".."}) == [];
      }
    }
  }

  /** Following one more name from where `dir` leads is `dict.get` there. */
  lemma {:induction false} LookupAppend(node: PyNode, dir: seq<string>, name: string)
    requires Lookup(node, dir).Dict?
    ensures Lookup(node, dir + [name]) == Get(Lookup(node, dir).children, name)
  {
    if dir == [] {
      assert dir + [name] == [name];
      assert [name][1..] == [];
    } else {
      assert (dir + [name])[1..] == dir[1..] + [name];
      assert (dir + [name])[0] == dir[0];
      if node.Dict? && dir[0] in node.children {
        LookupAppend(node.children[dir[0]], dir[1..], name);
      }
    }
  }

  /** Following one more name: a file (stored as `None`) ends the lookup exactly
      as a missing name does. */
  lemma FileLooksMissing(node: PyNode, dir: seq<string>, name: string)
    requires Lookup(node, dir).Dict?
    ensures var children := Lookup(node, dir).children;
            Lookup(node, dir + [name]).PyNone? <==> name !in children || children[name] == PyNone
  {
    LookupAppend(node, dir, name);
  }

  // ---------------------------------------------------------------------------
  // Properties of `ls`, `cd` and `pwd`.
  // ---------------------------------------------------------------------------

  /** `ls(path)` fails exactly when the path names nothing (or a file), and
      otherwise lists that dict's keys in strictly ascending order: the `[None]`
      branch is never taken. */
  lemma ListAtMeaning(root: DictNode, path: string)
    ensures ListAt(root, path) ==
              match Target(root, path)
              case PyNone => Err(NotFound)
              case Dict(children) => Ok(Names(SortedSet(children.Keys)))
  {
    ResolveReachesTarget(root, path);
  }

  /** `cd(path)` for a path other than `""` and `"."` fails exactly when the path
      names nothing, and never with NotADirectoryError; on success the new
      components are the path's own for an absolute path, and are appended to
      the old ones for a relative path. */
  lemma ChangeDirMeaning(root: DictNode, cwd: seq<string>, path: string)
    requires path != "" && path != "."
    ensures var (absolute, comps) := SplitComponents(path);
            ChangeDir(root, cwd, path) ==
              if Target(root, path).PyNone? then Err(NotFound)
              else Ok(if absolute then comps else cwd + comps)
  {
    ResolveReachesTarget(root, path);
  }

  /** `ls` and `cd` on the absolute path of a file fail just as on a missing name. */
  lemma FileIsNotFound(root: DictNode, cwd: seq<string>, dir: seq<string>, name: string)
    requires WellFormed(dir + [name]) && ".." !in dir + [name]
    requires Lookup(root, dir).Dict?
    requires name !in Lookup(root, dir).children || Lookup(root, dir).children[name] == PyNone
    ensures ListAt(root, Rooted(dir + [name])) == Err(NotFound)
    ensures ChangeDir(root, cwd, Rooted(dir + [name])) == Err(NotFound)
  {
    var names := dir + [name];
    SplitComponentsOfPwd(names);
    assert Rooted(names) != "" && Rooted(names) != ".";
    assert forall k :: 0 <= k < |names| ==> names[k] in names;
    KeepNothingDropped(names, {".."});
    FileLooksMissing(root, dir, name);
    ListAtMeaning(root, Rooted(names));
    ChangeDirMeaning(root, cwd, Rooted(names));
  }

  /** `cd("..")` always succeeds and appends a literal `..`. */
  lemma ChangeDirParentAppends(root: DictNode, cwd: seq<string>)
    ensures ChangeDir(root, cwd, "..") == Ok(cwd + [".."])
  {
    SplitPlain("..", '/');
    assert Keep([".."], {"", "."}) == [".."];
    assert Keep([".."], {".."}) == [];
    ResolveReachesTarget(root, "..");
  }

  /** `cd("/")` always succeeds and empties the component list. */
  lemma ChangeDirRootClears(root: DictNode, cwd: seq<string>)
    ensures ChangeDir(root, cwd, "/") == Ok([])
  {
    ResolveTrivialPaths(root);
  }

  /** Whatever `cd` stores is well formed. */
  lemma ChangeDirKeepsWellFormed(root: DictNode, cwd: seq<string>, path: string)
    ensures WellFormed(cwd) && ChangeDir(root, cwd, path).Ok? ==> WellFormed(ChangeDir(root, cwd, path).value)
  {
    if path != "" && path != "." {
      var (absolute, comps) := SplitComponents(path);
      if !absolute {
        assert forall k :: |cwd| <= k < |cwd + comps| ==> (cwd + comps)[k] == comps[k - |cwd|];
      }
    }
  }

  /** Stripping the slashes of `pwd()`'s output leaves the join of the components. */
  lemma StripRooted(names: seq<string>)
    requires WellFormed(names)
    ensures Strip(Rooted(names), {'/'}) == Join(names, "/")
  {
    var j := Join(names, "/");
    if names != [] {
      JoinStart(names, "/");
      JoinEnd(names, "/");
      assert names[0][0] in names[0];
      var last := names[|names| - 1];
      assert last[|last| - 1] in last;
    }
    assert Stripped(j, {'/'});
    StripLeadingOne('/', j, {'/'});
    assert Rooted(names) == ['/'] + j;
  }

  /** `pwd()` reads back as the absolute path of the same components. */
  lemma SplitComponentsOfPwd(names: seq<string>)
    requires WellFormed(names)
    ensures SplitComponents(Rooted(names)) == (true, names)
  {
    StripRooted(names);
    var j := Join(names, "/");
    if names == [] {
      assert Split(j, '/') == [""];
      assert Keep([""], {""}) == [];
    } else {
      SplitJoin(names, '/');
      assert Split(j, '/') == names;
      KeepNothingDropped(names, {""});
    }
  }

  /** A relative path is split at its slashes and loses exactly its `.` components
      (an absolute one keeps them: `SplitComponentsOfPwd`). */
  lemma SplitComponentsOfRelative(names: seq<string>)
    requires WellFormed(names) && names != []
    ensures SplitComponents(Join(names, "/")) == (false, Keep(names, {"", "."}))
  {
    var j := Join(names, "/");
    JoinStart(names, "/");
    assert names[0][0] in names[0];
    assert !StartsWith(j, "/") by {
      assert j[..1] == [j[0]];
    }
    SplitJoin(names, '/');
  }

  /** `cd(pwd())` either fails or leaves the component list as it was. */
  lemma ChangeDirToPwd(root: DictNode, cwd: seq<string>)
    requires WellFormed(cwd)
    ensures ChangeDir(root, cwd, Rooted(cwd)) in {Ok(cwd), Err(NotFound)}
  {
    SplitComponentsOfPwd(cwd);
    assert Rooted(cwd) != "" && Rooted(cwd) != ".";
    ChangeDirMeaning(root, cwd, Rooted(cwd));
  }

  // ---------------------------------------------------------------------------
  // The navigator object.
  // ---------------------------------------------------------------------------

  class VirtualFileSystem {
    const root: DictNode
    var cwd: seq<string>

    ghost predicate Valid()
      reads this
    {
      WellFormed(cwd)
    }

    constructor (root: DictNode)
      ensures this.root == root && cwd == [] && Valid()
    {
      this.root := root;
      cwd := [];
    }

    /** `_resolve`: walks from the root; `cur` is updated as in the code but
        never reaches the result, so the result does not depend on `cwd`. */
    method Resolve(path: string) returns (node: PyNode, rem: seq<string>)
      ensures (node, rem) == ResolvePath(root, path)
    {
      if path == "" || path == "." {
        return root, [];
      }
      var (absolute, comps) := SplitComponents(path);
      node := root;
      var cur := if absolute then [] else cwd;
      for i := 0 to |comps|
        invariant WalkLoop(node, comps[i..], comps) == WalkLoop(root, comps, comps)
      {
        var comp := comps[i];
        assert comps[i..][0] == comp && comps[i..][1..] == comps[i + 1..];
        if comp == ".." {
          if cur != [] {
            cur := cur[..|cur| - 1];
          }
          continue;
        }
        if !node.Dict? {
          return PyNone, comps;
        }
        node := Get(node.children, comp);
        if node.PyNone? {
          return PyNone, comps;
        }
        cur := cur + [comp];
      }
      return node, [];
    }

    /** `ls(path)`. */
    method Ls(path: string) returns (r: Result<LsResult, Error>)
      ensures r == ListAt(root, path)
      ensures r.Err? <==> Target(root, path).PyNone?
      ensures r.Ok? ==> r.value.Names? && StrictlySorted(r.value.names) && NoDuplicates(r.value.names)
                        && forall x :: x in r.value.names <==> x in Target(root, path).children
    {
      var node, rem := Resolve(path);
      ListAtMeaning(root, path);
      if node.PyNone? {
        return Err(NotFound);
      }
      StrictlySortedHasNoDuplicates(SortedSet(node.children.Keys));
      // Every node other than None is a dict, so the code's `[None]` branch is never taken.
      return Ok(Names(SortedSet(node.children.Keys)));
    }

    /** `cd(path)`: on success `cwd` becomes the new component list, on failure it is kept. */
    method Cd(path: string) returns (r: Outcome<Error>)
      modifies this
      ensures match ChangeDir(root, old(cwd), path)
              case Ok(next) => r == Pass && cwd == next
              case Err(e) => r == Fail(e) && cwd == old(cwd)
      ensures old(Valid()) ==> Valid()
    {
      ChangeDirKeepsWellFormed(root, cwd, path);
      if path == "" || path == "." {
        return Pass;
      }
      var node, rem := Resolve(path);
      if node.PyNone? {
        return Fail(NotFound);
      }
      // As in `Ls`, the NotADirectoryError branch is never taken.
      var (absolute, comps) := SplitComponents(path);
      cwd := if absolute then comps else cwd + comps;
      return Pass;
    }

    /** `pwd()`: under `Valid()` it reads back to `cwd` as an absolute path. */
    function Pwd(): (p: string)
      reads this
      ensures Valid() ==> SplitComponents(p) == (true, cwd)
    {
      var p := Rooted(cwd);
      assert WellFormed(cwd) ==> SplitComponents(p) == (true, cwd) by {
        if WellFormed(cwd) {
          SplitComponentsOfPwd(cwd);
        }
      }
      p
    }
  }
}
