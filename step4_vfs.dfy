/** The navigator of Step4.py: a snapshot tree that never changes after
    construction, and `cwd`, the list of directory names walked from its root,
    which only `Cd` changes. */
module Step4Vfs {
  import opened Wrappers
  import opened PyStrings

  /** A snapshot entry: a directory is a dict from names to entries, a file is
      the list of its lines (a file that could not be read holds the one
      sentinel line the builder put there). */
  datatype Node = Dir(children: map<string, Node>) | File(lines: seq<string>)

  /** The tree builder always returns a dict. */
  type DirNode = n: Node | n.Dir? witness Dir(map[])

  /** The exceptions the navigator and the command layer can raise. */
  datatype Error =
    | PathNotFound                                   // FileNotFoundError from `_get_dir_ref`
    | NoAttribute(owner: string, attribute: string)  // AttributeError on `None` or on a list
    | CwdNotADirectory                               // NotADirectoryError from `ls`
    | FolderNotFound(name: string)                   // FileNotFoundError from `cd`
    | NotADirectory(name: string)                    // NotADirectoryError from `cd`
    | FileNotFound(name: string)                     // FileNotFoundError from `read_file`
    | IsADirectory(name: string)                     // IsADirectoryError from `read_file`
    | ListIndexedByName                              // TypeError: a list subscripted by a str
    | InvalidInt(literal: string)                    // ValueError from `int()` in `head`

  const INVALID_INT: string := "invalid literal for int() with base 10: "

  /** `str(e)` for each exception, the text the command layer prints; `int()`
      formats the rejected literal with `%.200R`. */
  function Message(e: Error): string
  {
    match e
    case PathNotFound => "Путь не найден в VFS"
    case NoAttribute(owner, attribute) => "'" + owner + "' object has no attribute '" + attribute + "'"
    case CwdNotADirectory => "Текущий путь не директория"
    case FolderNotFound(name) => "Папка '" + name + "' не найдена"
    case NotADirectory(name) => "'" + name + "' — не директория"
    case FileNotFound(name) => "Файл '" + name + "' не найден"
    case IsADirectory(name) => "'" + name + "' — это директория"
    case ListIndexedByName => "list indices must be integers or slices, not str"
    case InvalidInt(literal) => INVALID_INT + Truncate(Repr(literal), 200)
  }

  // ---------------------------------------------------------------------------
  // The navigator's operations as functions of the tree and cwd.
  // ---------------------------------------------------------------------------

  /** The loop of `_get_dir_ref`: `ref = ref.get(part)` for each name in turn.
      A missing name raises; a list has no `get`. */
  function Walk(ref: Node, names: seq<string>): (r: Result<Node, Error>)
    ensures r.Err? ==> r.error == PathNotFound || r.error == NoAttribute("list", "get")
    ensures r.Err? ==> names != []
  {
    if names == [] then Ok(ref)
    else match ref
      case File(_) => Err(NoAttribute("list", "get"))
      case Dir(children) =>
        if names[0] in children then Walk(children[names[0]], names[1..])
        else Err(PathNotFound)
  }

  /** `names` leads from `tree` through dicts only, ending at a dict. */
  predicate IsDirPath(tree: Node, names: seq<string>)
  {
    var r := Walk(tree, names);
    r.Ok? && r.value.Dir?
  }

  /** The entries of the directory a dict path ends at. */
  function DirAt(tree: Node, names: seq<string>): map<string, Node>
    requires IsDirPath(tree, names)
  {
    Walk(tree, names).value.children
  }

  /** `ls()`: the current directory's names, sorted. */
  function Listing(tree: Node, cwd: seq<string>): (r: Result<seq<string>, Error>)
    ensures r.Ok? <==> IsDirPath(tree, cwd)
    ensures r.Ok? ==> StrictlySorted(r.value) && |r.value| == |DirAt(tree, cwd)|
    ensures r.Ok? ==> forall x :: x in r.value <==> x in DirAt(tree, cwd)
  {
    match Walk(tree, cwd)
    case Err(e) => Err(e)
    case Ok(ref) => if ref.Dir? then Ok(SortedSet(ref.children.Keys)) else Err(CwdNotADirectory)
  }

  /** `cd(path)`: the new cwd, or the exception raised (cwd then stays as it was).
      On a list `path in ref` tests the lines and `ref[path]` is a TypeError. */
  function ChangeDir(tree: Node, cwd: seq<string>, path: string): (r: Result<seq<string>, Error>)
    ensures path == "" || path == "." || path == ".." ==> r.Ok?
    ensures r.Ok? && path != ".." ==> r.value == cwd || r.value == cwd + [path]
    ensures r.Ok? && path == ".." ==> r.value <= cwd && |cwd| - 1 <= |r.value|
  {
    if path == "" || path == "." then Ok(cwd)
    else if path == ".." then Ok(if cwd == [] then [] else cwd[..|cwd| - 1])
    else match Walk(tree, cwd)
      case Err(e) => Err(e)
      case Ok(Dir(children)) =>
        if path !in children then Err(FolderNotFound(path))
        else if !children[path].Dir? then Err(NotADirectory(path))
        else Ok(cwd + [path])
      case Ok(File(lines)) =>
        if path !in lines then Err(FolderNotFound(path)) else Err(ListIndexedByName)
  }

  /** `read_file(name)`: the stored lines of a file of the current directory. */
  function ReadFileAt(tree: Node, cwd: seq<string>, name: string): (r: Result<seq<string>, Error>)
    ensures r.Ok? ==> IsDirPath(tree, cwd) && name in DirAt(tree, cwd) && DirAt(tree, cwd)[name] == File(r.value)
  {
    match Walk(tree, cwd)
    case Err(e) => Err(e)
    case Ok(Dir(children)) =>
      if name !in children then Err(FileNotFound(name))
      else if children[name].Dir? then Err(IsADirectory(name))
      else Ok(children[name].lines)
    case Ok(File(lines)) =>
      if name !in lines then Err(FileNotFound(name)) else Err(ListIndexedByName)
  }

  // ---------------------------------------------------------------------------
  // The navigator object.
  // ---------------------------------------------------------------------------

  class VirtualFileSystem {
    const tree: DirNode
    var cwd: seq<string>

    /** `cwd` names a chain of dicts of `tree`: the invariant every `Cd` keeps. */
    ghost predicate Valid()
      reads this
    {
      IsDirPath(tree, cwd)
    }

    /** The navigator over a tree already built, positioned at its root. */
    constructor (tree: DirNode)
      ensures this.tree == tree && cwd == []
      ensures Valid()
    {
      this.tree := tree;
      cwd := [];
    }

    /** `_get_dir_ref`: the entry `cwd` leads to; under the invariant a dict, never an exception. */
    method GetDirRef() returns (r: Result<Node, Error>)
      ensures r == Walk(tree, cwd)
      ensures Valid() ==> r.Ok? && r.value.Dir?
    {
      var ref: Node := tree;
      for i := 0 to |cwd|
        invariant Walk(ref, cwd[i..]) == Walk(tree, cwd)
      {
        match ref
        case File(_) =>
          return Err(NoAttribute("list", "get"));
        case Dir(children) =>
          if cwd[i] !in children {
            return Err(PathNotFound);
          }
          ref := children[cwd[i]];
      }
      return Ok(ref);
    }

    /** `ls()`: under the invariant, every name of the current directory once, strictly ascending. */
    method Ls() returns (r: Result<seq<string>, Error>)
      ensures r == Listing(tree, cwd)
      ensures Valid() ==> r.Ok? && StrictlySorted(r.value) && NoDuplicates(r.value)
                          && forall x :: x in r.value <==> x in DirAt(tree, cwd)
    {
      var ref := GetDirRef();
      if ref.Err? {
        return Err(ref.error);
      }
      if !ref.value.Dir? {
        return Err(CwdNotADirectory);
      }
      StrictlySortedHasNoDuplicates(SortedSet(ref.value.children.Keys));
      return Ok(SortedSet(ref.value.children.Keys));
    }

    /** `cd(path)`: a failure raises and leaves `cwd` as it was; the invariant is kept. */
    method Cd(path: string) returns (r: Outcome<Error>)
      modifies this
      ensures match ChangeDir(tree, old(cwd), path)
              case Ok(next) => r == Pass && cwd == next
              case Err(e) => r == Fail(e) && cwd == old(cwd)
      ensures old(Valid()) ==> Valid()
    {
      ChangeDirKeepsDirPath(tree, cwd, path);
      if path == "" || path == "." {
        return Pass;
      }
      if path == ".." {
        if cwd != [] {
          cwd := cwd[..|cwd| - 1];
        }
        return Pass;
      }
      var ref := GetDirRef();
      if ref.Err? {
        return Fail(ref.error);
      }
      match ref.value {
        case Dir(children) =>
          if path !in children {
            return Fail(FolderNotFound(path));
          }
          if !children[path].Dir? {
            return Fail(NotADirectory(path));
          }
        case File(lines) =>
          if path !in lines {
            return Fail(FolderNotFound(path));
          }
          return Fail(ListIndexedByName);
      }
      cwd := cwd + [path];
      return Pass;
    }

    /** `pwd()`. */
    function Pwd(): (p: string)
      reads this
      ensures StartsWith(p, "/") && (cwd == [] ==> p == "/")
      ensures |cwd| == 1 ==> p == "/" + cwd[0]
    {
      Rooted(cwd)
    }

    /** `read_file(name)`: under the invariant a missing name is FileNotFound, a dict is
        IsADirectory, and a file gives exactly its stored lines. */
    method ReadFile(name: string) returns (r: Result<seq<string>, Error>)
      ensures r == ReadFileAt(tree, cwd, name)
      ensures Valid() ==> (name !in DirAt(tree, cwd) <==> r == Err(FileNotFound(name)))
      ensures Valid() ==> (name in DirAt(tree, cwd) && DirAt(tree, cwd)[name].Dir? <==> r == Err(IsADirectory(name)))
      ensures Valid() ==> (r.Ok? <==> name in DirAt(tree, cwd) && DirAt(tree, cwd)[name].File?)
      ensures Valid() && r.Ok? ==> r.value == DirAt(tree, cwd)[name].lines
    {
      var ref := GetDirRef();
      if ref.Err? {
        return Err(ref.error);
      }
      match ref.value
      case Dir(children) =>
        if name !in children {
          return Err(FileNotFound(name));
        }
        if children[name].Dir? {
          return Err(IsADirectory(name));
        }
        return Ok(children[name].lines);
      case File(lines) =>
        if name !in lines {
          return Err(FileNotFound(name));
        }
        return Err(ListIndexedByName);
    }
  }

  // ---------------------------------------------------------------------------
  // Properties of the navigator.
  // ---------------------------------------------------------------------------

  /** A rejected count with no double quote, backslash or unprintable character
      is printed as itself in quotes (double ones when it holds a single quote)
      if it has at most 198 characters; a longer one is cut to 200 characters
      including the opening quote. */
  lemma InvalidIntMessage(literal: string)
    requires forall k :: 0 <= k < |literal| ==> literal[k] != '"' && literal[k] != '\\' && ShownAsIs(literal[k])
    ensures |literal| <= 198 ==>
              Message(InvalidInt(literal)) ==
                INVALID_INT + if '\'' in literal then "\"" + literal + "\"" else "'" + literal + "'"
    ensures |literal| > 198 ==>
              Message(InvalidInt(literal)) ==
                INVALID_INT + (if '\'' in literal then "\"" + literal else "'" + literal)[..200]
  {
    ReprOfPlain(literal);
    var q: char := if '\'' in literal then '"' else '\'';
    assert Repr(literal) == [q] + literal + [q];
    if |literal| > 198 {
      assert (Repr(literal))[..200] == ([q] + literal)[..200];
    }
  }

  /** Walking one more name is one more lookup in the entry reached so far. */
  lemma {:induction false} WalkAppend(ref: Node, names: seq<string>, name: string)
    ensures Walk(ref, names + [name]) ==
      match Walk(ref, names)
      case Err(e) => Err(e)
      case Ok(File(_)) => Err(NoAttribute("list", "get"))
      case Ok(Dir(children)) => if name in children then Ok(children[name]) else Err(PathNotFound)
  {
    if names != [] {
      assert (names + [name])[1..] == names[1..] + [name];
      match ref
      case File(_) =>
      case Dir(children) =>
        if names[0] in children {
          WalkAppend(children[names[0]], names[1..], name);
        }
    } else {
      assert names + [name] == [name];
    }
  }

  /** Every prefix of a dict path is a dict path. */
  lemma DirPathPrefix(tree: Node, names: seq<string>, name: string)
    requires IsDirPath(tree, names + [name])
    ensures IsDirPath(tree, names)
    ensures name in DirAt(tree, names) && DirAt(tree, names)[name].Dir?
  {
    WalkAppend(tree, names, name);
  }

  /** Every successful `cd` leaves `cwd` naming a chain of dicts. */
  lemma ChangeDirKeepsDirPath(tree: Node, cwd: seq<string>, path: string)
    ensures IsDirPath(tree, cwd) && ChangeDir(tree, cwd, path).Ok?
            ==> IsDirPath(tree, ChangeDir(tree, cwd, path).value)
  {
    if IsDirPath(tree, cwd) && ChangeDir(tree, cwd, path).Ok? {
      if path == ".." && cwd != [] {
        var up := cwd[..|cwd| - 1];
        assert cwd == up + [cwd[|cwd| - 1]];
        DirPathPrefix(tree, up, cwd[|cwd| - 1]);
      } else if path != "" && path != "." && path != ".." {
        WalkAppend(tree, cwd, path);
      }
    }
  }

  /** `cd("")` and `cd(".")` change nothing; `cd("..")` drops the last name,
      and at the root it changes nothing, so `pwd()` stays `"/"`. */
  lemma ChangeDirSpecialNames(tree: Node, cwd: seq<string>)
    ensures ChangeDir(tree, cwd, "") == Ok(cwd)
    ensures ChangeDir(tree, cwd, ".") == Ok(cwd)
    ensures cwd != [] ==> ChangeDir(tree, cwd, "..") == Ok(cwd[..|cwd| - 1])
    ensures ChangeDir(tree, [], "..") == Ok([]) && Rooted([]) == "/"
  {
  }

  /** From a valid cwd, `cd(name)` for any other single name: a name the directory
      lacks raises FolderNotFound, a file raises NotADirectory, a dict is appended
      as it is (no splitting on `/`). */
  lemma ChangeDirIntoChild(tree: Node, cwd: seq<string>, name: string)
    requires IsDirPath(tree, cwd)
    requires name != "" && name != "." && name != ".."
    ensures name !in DirAt(tree, cwd) ==> ChangeDir(tree, cwd, name) == Err(FolderNotFound(name))
    ensures name in DirAt(tree, cwd) && DirAt(tree, cwd)[name].File?
            ==> ChangeDir(tree, cwd, name) == Err(NotADirectory(name))
    ensures name in DirAt(tree, cwd) && DirAt(tree, cwd)[name].Dir?
            ==> ChangeDir(tree, cwd, name) == Ok(cwd + [name])
  {
  }

  /** `cd(name)` followed by `cd("..")` returns to where it started. */
  lemma ChangeDirThenUp(tree: Node, cwd: seq<string>, name: string)
    requires name != "" && name != "." && name != ".."
    requires ChangeDir(tree, cwd, name).Ok?
    ensures ChangeDir(tree, ChangeDir(tree, cwd, name).value, "..") == Ok(cwd)
  {
    assert (cwd + [name])[..|cwd|] == cwd;
  }

  lemma {:induction false} JoinAppend(parts: seq<string>, last: string, sep: string)
    requires parts != []
    ensures Join(parts + [last], sep) == Join(parts, sep) + sep + last
  {
    if |parts| == 1 {
      assert parts + [last] == [parts[0], last];
    } else {
      assert (parts + [last])[1..] == parts[1..] + [last];
      JoinAppend(parts[1..], last, sep);
    }
  }

  /** After a successful `cd(name)` into a child, `pwd()` is the old path with
      `/name` added (or `/name` from the root). */
  lemma PwdAfterChangeDir(tree: Node, cwd: seq<string>, name: string)
    requires name != "" && name != "." && name != ".."
    requires ChangeDir(tree, cwd, name).Ok?
    ensures Rooted(ChangeDir(tree, cwd, name).value)
            == (if cwd == [] then "/" + name else Rooted(cwd) + "/" + name)
  {
    if cwd != [] {
      JoinAppend(cwd, name, "/");
    } else {
      assert [] + [name] == [name];
    }
  }
}
