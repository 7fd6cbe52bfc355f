/** The command layer of Step4.py: one command line, already split into words,
    goes in; the output lines come out, and the navigator's cwd may have moved.
    Every exception a command raises is caught into one `[Ошибка] …` line. */
module Step4Shell {
  import opened Wrappers
  import opened PyStrings
  import opened Step4Vfs

  /** What the shell-style lexer made of a raw line: its words, or the reason it failed. */
  datatype CommandLine = Words(tokens: seq<string>) | LexError(reason: string)

  /** What the command layer sees of its navigator: none at all (the startup path
      was not a directory), or a tree and the current cwd. */
  datatype Mount = Unmounted | Mounted(tree: Node, cwd: seq<string>)

  /** The outcome of one command line: the lines written, the navigator afterwards,
      and whether the session ends. */
  datatype Reply = Reply(output: seq<string>, mount: Mount, quit: bool)

  const DEFAULT_HEAD_COUNT: int := 10
  const CD_USAGE: string := "cd: нужен аргумент"
  const CAT_USAGE: string := "cat: нужен файл"
  const HEAD_USAGE: string := "head: нужен файл"
  const UNIQ_USAGE: string := "uniq: нужен файл"

  function ErrorLine(e: Error): string
  {
    "[Ошибка] " + Message(e)
  }

  function UnknownCommandLine(cmd: string): string
  {
    "Ошибка: неизвестная команда '" + cmd + "'"
  }

  function LexErrorLine(reason: string): string
  {
    "Ошибка парсера: " + reason
  }

  /** The invariant of the navigator, when there is one. */
  ghost predicate MountValid(m: Mount)
  {
    m.Mounted? ==> IsDirPath(m.tree, m.cwd)
  }

  // ---------------------------------------------------------------------------
  // Python's list slicing and the `uniq` filter.
  // ---------------------------------------------------------------------------

  /** Python's `s[:n]`: a bound past the end keeps everything, a negative bound
      counts from the end (so `s[:-k]` drops the last k elements). */
  function SliceTo<T>(s: seq<T>, n: int): (r: seq<T>)
    ensures 0 <= n <= |s| ==> r == s[..n]
    ensures n >= |s| ==> r == s
    ensures n < 0 && -n <= |s| ==> r == s[..|s| + n]
    ensures n < 0 && -n > |s| ==> r == []
  {
    if n >= 0 then (if n <= |s| then s[..n] else s)
    else if -n <= |s| then s[..|s| + n] else []
  }

  /** What `uniq` prints: each line the first time it is seen. */
  function Dedup(lines: seq<string>): (r: seq<string>)
    ensures NoDuplicates(r)
    ensures forall x :: x in r <==> x in lines
  {
    if lines == [] then []
    else
      var prev := Dedup(lines[..|lines| - 1]);
      var last := lines[|lines| - 1];
      assert forall x :: x in lines <==> x in lines[..|lines| - 1] || x == last by {
        assert lines == lines[..|lines| - 1] + [last];
      }
      if last in prev then prev else prev + [last]
  }

  /** Where `x` first occurs in `s`. */
  function FirstIndex(s: seq<string>, x: string): (k: nat)
    requires x in s
    ensures k < |s| && s[k] == x
    ensures forall j :: 0 <= j < k ==> s[j] != x
  {
    if s[0] == x then 0 else 1 + FirstIndex(s[1..], x)
  }

  /** `a` occurs in `b` in order, possibly with gaps. */
  ghost predicate IsSubsequence(a: seq<string>, b: seq<string>)
  {
    exists idx: seq<nat> :: SubsequenceWitness(a, b, idx)
  }

  ghost predicate SubsequenceWitness(a: seq<string>, b: seq<string>, idx: seq<nat>)
  {
    && |idx| == |a|
    && (forall k :: 0 <= k < |a| ==> idx[k] < |b| && b[idx[k]] == a[k])
    && (forall k, l :: 0 <= k < l < |a| ==> idx[k] < idx[l])
  }

  // ---------------------------------------------------------------------------
  // The commands as functions of the navigator's state.
  // ---------------------------------------------------------------------------

  /** `cmd_ls`: arguments are ignored, the current directory is listed. */
  function LsCommand(m: Mount): (r: Result<seq<string>, Error>)
    ensures r.Ok? ==> m.Mounted? && StrictlySorted(r.value)
    ensures MountValid(m) && m.Mounted? ==> r.Ok? && forall x :: x in r.value <==> x in DirAt(m.tree, m.cwd)
  {
    match m
    case Unmounted => Err(NoAttribute("NoneType", "ls"))
    case Mounted(tree, cwd) => Listing(tree, cwd)
  }

  /** `cmd_cd`: the output and the navigator afterwards. Only the first argument is used. */
  function CdCommand(m: Mount, args: seq<string>): (r: Result<(seq<string>, Mount), Error>)
    ensures r.Ok? && args != [] ==> m.Mounted? && r.value.0 == [] && r.value.1.Mounted? && r.value.1.tree == m.tree
    ensures r.Ok? && args == [] ==> r.value.1 == m
  {
    if args == [] then Ok(([CD_USAGE], m))
    else match m
      case Unmounted => Err(NoAttribute("NoneType", "cd"))
      case Mounted(tree, cwd) =>
        match ChangeDir(tree, cwd, args[0])
        case Err(e) => Err(e)
        case Ok(next) => Ok(([], Mounted(tree, next)))
  }

  function PwdCommand(m: Mount): (r: Result<seq<string>, Error>)
    ensures r.Ok? <==> m.Mounted?
    ensures r.Ok? ==> |r.value| == 1 && StartsWith(r.value[0], "/")
  {
    match m
    case Unmounted => Err(NoAttribute("NoneType", "pwd"))
    case Mounted(_, cwd) => Ok([Rooted(cwd)])
  }

  /** `read_file` as the commands call it, on whatever navigator there is. */
  function ReadCommandFile(m: Mount, name: string): (r: Result<seq<string>, Error>)
    ensures r.Ok? ==> m.Mounted? && IsDirPath(m.tree, m.cwd) && name in DirAt(m.tree, m.cwd)
                      && DirAt(m.tree, m.cwd)[name] == File(r.value)
  {
    match m
    case Unmounted => Err(NoAttribute("NoneType", "read_file"))
    case Mounted(tree, cwd) => ReadFileAt(tree, cwd, name)
  }

  function CatCommand(m: Mount, args: seq<string>): (r: Result<seq<string>, Error>)
    ensures args != [] && r.Ok? ==> m.Mounted? && IsDirPath(m.tree, m.cwd) && args[0] in DirAt(m.tree, m.cwd)
                                    && DirAt(m.tree, m.cwd)[args[0]] == File(r.value)
  {
    if args == [] then Ok([CAT_USAGE])
    else ReadCommandFile(m, args[0])
  }

  /** `cmd_head`: the count is parsed before the file is read, so a bad count
      is reported even without a navigator. */
  function HeadCommand(m: Mount, args: seq<string>, intOf: string -> Option<int>): (r: Result<seq<string>, Error>)
    ensures args != [] && r.Ok? ==>
              ReadCommandFile(m, args[0]).Ok? && r.value <= ReadCommandFile(m, args[0]).value
  {
    if args == [] then Ok([HEAD_USAGE])
    else
      var count := if |args| > 1 then intOf(args[1]) else Some(DEFAULT_HEAD_COUNT);
      if count.None? then Err(InvalidInt(args[1]))
      else match ReadCommandFile(m, args[0])
        case Err(e) => Err(e)
        case Ok(lines) => Ok(SliceTo(lines, count.value))
  }

  function UniqCommand(m: Mount, args: seq<string>): (r: Result<seq<string>, Error>)
    ensures args != [] && r.Ok? ==>
              && ReadCommandFile(m, args[0]).Ok? && NoDuplicates(r.value)
              && forall x :: x in r.value <==> x in ReadCommandFile(m, args[0]).value
  {
    if args == [] then Ok([UNIQ_USAGE])
    else match ReadCommandFile(m, args[0])
      case Err(e) => Err(e)
      case Ok(lines) => Ok(Dedup(lines))
  }

  predicate IsCommand(cmd: string)
  {
    cmd in {"ls", "cd", "pwd", "cat", "head", "uniq"}
  }

  /** The body of the dispatcher's `try`: the output and navigator of a recognised command, or its exception. */
  function Run(m: Mount, cmd: string, args: seq<string>, intOf: string -> Option<int>): (r: Result<(seq<string>, Mount), Error>)
    requires IsCommand(cmd)
    ensures r.Ok? && cmd != "cd" ==> r.value.1 == m
    ensures r.Ok? ==> (r.value.1.Mounted? <==> m.Mounted?)
  {
    if cmd == "cd" then CdCommand(m, args)
    else
      var r :=
        if cmd == "ls" then LsCommand(m)
        else if cmd == "pwd" then PwdCommand(m)
        else if cmd == "cat" then CatCommand(m, args)
        else if cmd == "head" then HeadCommand(m, args, intOf)
        else UniqCommand(m, args);
      match r
      case Err(e) => Err(e)
      case Ok(out) => Ok((out, m))
  }

  /** `execute_command_line` after lexing. */
  function Execute(m: Mount, line: CommandLine, intOf: string -> Option<int>): (r: Reply)
    ensures r.quit <==> line.Words? && line.tokens != [] && line.tokens[0] == "exit"
    ensures r.quit ==> r.output == [] && r.mount == m
    ensures line.LexError? ==> r.output == [LexErrorLine(line.reason)] && r.mount == m
    ensures r.mount.Mounted? <==> m.Mounted?
  {
    match line
    case LexError(reason) => Reply([LexErrorLine(reason)], m, false)
    case Words(tokens) =>
      if tokens == [] then Reply([], m, false)
      else if tokens[0] == "exit" then Reply([], m, true)
      else if IsCommand(tokens[0]) then
        match Run(m, tokens[0], tokens[1..], intOf)
        case Err(e) => Reply([ErrorLine(e)], m, false)
        case Ok((out, next)) => Reply(out, next, false)
      else Reply([UnknownCommandLine(tokens[0])], m, false)
  }

  /** One raw line of a startup script: stripped of the characters in `blank`
      (Python's whitespace in `StartupScriptCommands`), and dropped when that leaves it empty or starting with `#`. */
  function ScriptLine(raw: string, blank: set<char>): (r: Option<string>)
    ensures r.Some? ==> r.value == Strip(raw, blank)
    ensures r.Some? <==> Strip(raw, blank) != "" && Strip(raw, blank)[0] != '#'
    ensures r.Some? ==> Stripped(r.value, blank)
  {
    var line := Strip(raw, blank);
    if line == "" || StartsWith(line, "#") then None else Some(line)
  }

  /** The lines `run_startup_script` goes on to echo and execute, in file order,
      for a strip that removes the characters in `blank` (`StartupScriptCommands`
      fixes `blank` to what the script reader's `strip()` removes). */
  function ScriptCommands(raw: seq<string>, blank: set<char>): (r: seq<string>)
    ensures |r| <= |raw|
    ensures forall k :: 0 <= k < |r| ==>
              r[k] != "" && r[k][0] != '#' && Stripped(r[k], blank)
  {
    if raw == [] then [] else Kept(raw[0], blank) + ScriptCommands(raw[1..], blank)
  }

  /** The filter as `run_startup_script` applies it: `raw.strip()` with no
      argument, which removes Python's whitespace. */
  function StartupScriptCommands(raw: seq<string>): (r: seq<string>)
    ensures |r| <= |raw|
    ensures forall k :: 0 <= k < |r| ==>
              r[k] != "" && r[k][0] != '#' && r[k][0] !in WHITESPACE && r[k][|r[k]| - 1] !in WHITESPACE
  {
    ScriptCommands(raw, WHITESPACE)
  }

  // ---------------------------------------------------------------------------
  // Properties of `uniq`.
  // ---------------------------------------------------------------------------

  /** A file without repeated lines passes through `uniq` unchanged. */
  lemma {:induction false} DedupOfDistinct(lines: seq<string>)
    requires NoDuplicates(lines)
    ensures Dedup(lines) == lines
  {
    if lines != [] {
      var init := lines[..|lines| - 1];
      var last := lines[|lines| - 1];
      assert NoDuplicates(init);
      DedupOfDistinct(init);
      assert last !in init by {
        forall j | 0 <= j < |init|
          ensures init[j] != last
        {
          assert init[j] == lines[j];
        }
      }
      assert lines == init + [last];
    }
  }

  /** One more line at the end is printed by `uniq` exactly when it is new. */
  lemma DedupSnoc(lines: seq<string>, x: string)
    ensures Dedup(lines + [x]) == if x in Dedup(lines) then Dedup(lines) else Dedup(lines) + [x]
  {
    assert (lines + [x])[..|lines|] == lines;
  }

  lemma FirstIndexAppend(a: seq<string>, y: string, x: string)
    requires x in a
    ensures FirstIndex(a + [y], x) == FirstIndex(a, x)
  {
    var k' := FirstIndex(a, x);
    assert (a + [y])[k'] == x;
    assert forall j :: 0 <= j < |a| ==> (a + [y])[j] == a[j];
  }

  /** Every element of `r` is in `lines`, and `r` lists them in the order of their
      first occurrences there. */
  ghost predicate InFirstOccurrenceOrder(r: seq<string>, lines: seq<string>)
  {
    && (forall k :: 0 <= k < |r| ==> r[k] in lines)
    && (forall i, j {:trigger r[i], r[j]} :: 0 <= i < j < |r| ==>
          r[i] in lines && r[j] in lines && FirstIndex(lines, r[i]) < FirstIndex(lines, r[j]))
  }

  /** `uniq` keeps the order in which lines first occur in the file. */
  lemma {:induction false} DedupFirstOccurrence(lines: seq<string>)
    ensures InFirstOccurrenceOrder(Dedup(lines), lines)
  {
    if lines != [] {
      var init := lines[..|lines| - 1];
      var last := lines[|lines| - 1];
      assert lines == init + [last];
      DedupFirstOccurrence(init);
      var prev := Dedup(init);
      forall x | x in init
        ensures FirstIndex(lines, x) == FirstIndex(init, x)
      {
        FirstIndexAppend(init, last, x);
      }
      if last !in prev {
        var r := prev + [last];
        assert FirstIndex(lines, last) == |init|;
        forall i, j | 0 <= i < j < |r|
          ensures r[i] in lines && r[j] in lines && FirstIndex(lines, r[i]) < FirstIndex(lines, r[j])
        {
          assert r[i] == prev[i] && prev[i] in prev && prev[i] in init;
          assert FirstIndex(lines, r[i]) == FirstIndex(init, r[i]) < |init|;
          if j < |prev| {
            assert r[j] == prev[j] && prev[j] in prev && prev[j] in init;
            assert FirstIndex(lines, r[j]) == FirstIndex(init, r[j]);
            assert FirstIndex(init, prev[i]) < FirstIndex(init, prev[j]);
          } else {
            assert r[j] == last;
            assert FirstIndex(lines, r[j]) == |init|;
          }
        }
      } else {
        forall i, j | 0 <= i < j < |prev|
          ensures prev[i] in lines && prev[j] in lines && FirstIndex(lines, prev[i]) < FirstIndex(lines, prev[j])
        {
          assert prev[i] in prev && prev[j] in prev && prev[i] in init && prev[j] in init;
          assert FirstIndex(lines, prev[i]) == FirstIndex(init, prev[i]);
          assert FirstIndex(lines, prev[j]) == FirstIndex(init, prev[j]);
          assert FirstIndex(init, prev[i]) < FirstIndex(init, prev[j]);
        }
      }
    }
  }

  /** `uniq`'s output is a subsequence of the file: each line is taken where it first occurs. */
  lemma DedupIsSubsequence(lines: seq<string>)
    ensures IsSubsequence(Dedup(lines), lines)
  {
    var r := Dedup(lines);
    DedupFirstOccurrence(lines);
    assert forall k :: 0 <= k < |r| ==> r[k] in lines by {
      forall k | 0 <= k < |r|
        ensures r[k] in lines
      {
        assert r[k] in r;
      }
    }
    var idx := seq(|r|, k requires 0 <= k < |r| => FirstIndex(lines, r[k]));
    assert forall k :: 0 <= k < |r| ==> idx[k] == FirstIndex(lines, r[k]);
    forall k, l | 0 <= k < l < |r|
      ensures idx[k] < idx[l]
    {
      assert FirstIndex(lines, r[k]) < FirstIndex(lines, r[l]);
    }
    assert SubsequenceWitness(r, lines, idx);
  }

  /** `uniq f` prints no line twice, keeps first-occurrence order, takes its lines
      from the file in order, and prints every distinct line of it. */
  lemma UniqOutput(m: Mount, name: string)
    requires ReadCommandFile(m, name).Ok?
    ensures var lines := ReadCommandFile(m, name).value;
            var out := UniqCommand(m, [name]);
            && out.Ok? && NoDuplicates(out.value)
            && (forall x :: x in out.value <==> x in lines)
            && IsSubsequence(out.value, lines)
            && InFirstOccurrenceOrder(out.value, lines)
  {
    var lines := ReadCommandFile(m, name).value;
    assert UniqCommand(m, [name]) == Ok(Dedup(lines));
    DedupIsSubsequence(lines);
    DedupFirstOccurrence(lines);
  }

  /** For a file without repeated lines, `uniq f` prints what `cat f` prints. */
  lemma UniqOfDistinctIsCat(m: Mount, name: string)
    requires ReadCommandFile(m, name).Ok? && NoDuplicates(ReadCommandFile(m, name).value)
    ensures UniqCommand(m, [name]) == CatCommand(m, [name])
  {
    DedupOfDistinct(ReadCommandFile(m, name).value);
  }

  // ---------------------------------------------------------------------------
  // Properties of `head`.
  // ---------------------------------------------------------------------------

  /** `head f n` with n at least the file's length prints what `cat f` prints, and so
      does `head f` for a file of at most ten lines; a failing read fails both alike. */
  lemma HeadCoversCat(m: Mount, name: string, count: string, intOf: string -> Option<int>)
    requires intOf(count).Some?
    ensures ReadCommandFile(m, name).Ok? && intOf(count).value >= |ReadCommandFile(m, name).value|
            ==> HeadCommand(m, [name, count], intOf) == CatCommand(m, [name])
    ensures ReadCommandFile(m, name).Ok? && |ReadCommandFile(m, name).value| <= DEFAULT_HEAD_COUNT
            ==> HeadCommand(m, [name], intOf) == CatCommand(m, [name])
    ensures ReadCommandFile(m, name).Err?
            ==> HeadCommand(m, [name, count], intOf) == CatCommand(m, [name])
                && HeadCommand(m, [name], intOf) == CatCommand(m, [name])
  {
  }

  /** `head f n` is Python's `lines[:n]`: the first n lines, or for negative n all but
      the last |n|; an unparsable count fails before the file is read; without a file
      argument only the usage line is printed. */
  lemma HeadSlices(m: Mount, name: string, count: string, intOf: string -> Option<int>)
    ensures HeadCommand(m, [], intOf) == Ok([HEAD_USAGE])
    ensures intOf(count).None? ==> HeadCommand(m, [name, count], intOf) == Err(InvalidInt(count))
    ensures intOf(count).Some? && ReadCommandFile(m, name).Ok? ==>
              HeadCommand(m, [name, count], intOf) == Ok(SliceTo(ReadCommandFile(m, name).value, intOf(count).value))
    ensures ReadCommandFile(m, name).Ok? ==>
              HeadCommand(m, [name], intOf) == Ok(SliceTo(ReadCommandFile(m, name).value, DEFAULT_HEAD_COUNT))
  {
  }

  // ---------------------------------------------------------------------------
  // Properties of the dispatcher.
  // ---------------------------------------------------------------------------

  /** A line with no words prints nothing and changes nothing. */
  lemma ExecuteBlankLine(m: Mount, intOf: string -> Option<int>)
    ensures Execute(m, Words([]), intOf) == Reply([], m, false)
  {
  }

  /** An unrecognised command prints exactly one line naming it. */
  lemma ExecuteUnknownCommand(m: Mount, cmd: string, args: seq<string>, intOf: string -> Option<int>)
    requires cmd != "exit" && !IsCommand(cmd)
    ensures Execute(m, Words([cmd] + args), intOf) == Reply([UnknownCommandLine(cmd)], m, false)
  {
  }

  /** An exception inside a recognised command becomes exactly one `[Ошибка] …` line,
      and the navigator is left as it was. */
  lemma ExecuteCatchesErrors(m: Mount, cmd: string, args: seq<string>, intOf: string -> Option<int>)
    requires IsCommand(cmd) && Run(m, cmd, args, intOf).Err?
    ensures var reply := Execute(m, Words([cmd] + args), intOf);
            |reply.output| == 1 && StartsWith(reply.output[0], "[Ошибка] ")
            && reply.mount == m && !reply.quit
  {
    assert ([cmd] + args)[1..] == args;
  }

  /** `cd` with no argument prints its usage line and does not move. */
  lemma ExecuteCdWithoutArgument(m: Mount, intOf: string -> Option<int>)
    ensures Execute(m, Words(["cd"]), intOf) == Reply([CD_USAGE], m, false)
  {
    assert ["cd"][1..] == [];
  }

  /** Without a navigator, every command that needs one reports exactly one error line. */
  lemma ExecuteUnmounted(cmd: string, args: seq<string>, intOf: string -> Option<int>)
    requires cmd == "ls" || cmd == "pwd" || (cmd in {"cd", "cat", "uniq"} && args != [])
    ensures var reply := Execute(Unmounted, Words([cmd] + args), intOf);
            |reply.output| == 1 && reply.output[0] == ErrorLine(NoAttribute("NoneType", if cmd in {"cat", "uniq"} then "read_file" else cmd))
            && reply.mount == Unmounted
  {
    assert ([cmd] + args)[1..] == args;
  }

  /** Only `cd` moves the navigator, and every command line keeps its invariant. */
  lemma ExecuteKeepsInvariant(m: Mount, line: CommandLine, intOf: string -> Option<int>)
    requires MountValid(m)
    ensures MountValid(Execute(m, line, intOf).mount)
    ensures Execute(m, line, intOf).mount.Mounted? <==> m.Mounted?
    ensures !(line.Words? && line.tokens != [] && line.tokens[0] == "cd") ==> Execute(m, line, intOf).mount == m
  {
    if line.Words? && line.tokens != [] && line.tokens[0] == "cd" && m.Mounted? && line.tokens[1..] != [] {
      ChangeDirKeepsDirPath(m.tree, m.cwd, line.tokens[1]);
    }
  }

  /** A `cd` that fails leaves `pwd` printing what it printed before. */
  lemma FailedCdKeepsPwd(tree: Node, cwd: seq<string>, path: string, intOf: string -> Option<int>)
    requires ChangeDir(tree, cwd, path).Err?
    ensures var after := Execute(Mounted(tree, cwd), Words(["cd", path]), intOf).mount;
            after == Mounted(tree, cwd)
            && Execute(after, Words(["pwd"]), intOf).output == [Rooted(cwd)]
  {
    assert ["cd", path][1..] == [path];
  }

  // ---------------------------------------------------------------------------
  // The startup-script filter.
  // ---------------------------------------------------------------------------

  /** What a first raw line contributes, ahead of the lines after it. */
  function Kept(raw: string, blank: set<char>): (r: seq<string>)
    ensures |r| <= 1
  {
    var h := ScriptLine(raw, blank);
    if h.None? then [] else [h.value]
  }

  lemma ScriptCommandsCons(raw: string, rest: seq<string>, blank: set<char>)
    ensures ScriptCommands([raw] + rest, blank) == Kept(raw, blank) + ScriptCommands(rest, blank)
  {
    assert ([raw] + rest)[0] == raw;
    assert ([raw] + rest)[1..] == rest;
  }

  /** Each raw line is kept or skipped on its own (a skipped line never affects
      another), in file order. */
  lemma {:induction false} ScriptCommandsConcat(a: seq<string>, b: seq<string>, blank: set<char>)
    ensures ScriptCommands(a + b, blank) == ScriptCommands(a, blank) + ScriptCommands(b, blank)
  {
    if a == [] {
      assert a + b == b;
    } else {
      var x, t := a[0], a[1..];
      calc {
        ScriptCommands(a + b, blank);
        == { assert a + b == [x] + (t + b); }
        ScriptCommands([x] + (t + b), blank);
        == { ScriptCommandsCons(x, t + b, blank); }
        Kept(x, blank) + ScriptCommands(t + b, blank);
        == { ScriptCommandsConcat(t, b, blank); }
        Kept(x, blank) + (ScriptCommands(t, blank) + ScriptCommands(b, blank));
        (Kept(x, blank) + ScriptCommands(t, blank)) + ScriptCommands(b, blank);
        == { ScriptCommandsCons(x, t, blank); assert a == [x] + t; }
        ScriptCommands(a, blank) + ScriptCommands(b, blank);
      }
    }
  }

  /** A single raw line contributes its stripped form exactly when that is neither
      empty nor a `#` comment. */
  lemma ScriptCommandsOfLine(raw: string, blank: set<char>)
    ensures var line := Strip(raw, blank);
            ScriptCommands([raw], blank) == if line == "" || line[0] == '#' then [] else [line]
  {
    assert [raw][1..] == [];
  }

  // ---------------------------------------------------------------------------
  // A worked session: a root holding `docs/a.txt` with lines x, y, x.
  // ---------------------------------------------------------------------------

  function ExampleTree(): Node
  {
    Dir(map["docs" := Dir(map["a.txt" := File(["x", "y", "x"])])])
  }

  /** `ls` at the root lists `docs`; `cd docs` moves there and `pwd` then prints `/docs`. */
  lemma ExampleEnterDocs(intOf: string -> Option<int>)
    ensures var s0, s1 := Mounted(ExampleTree(), []), Mounted(ExampleTree(), ["docs"]);
            && Execute(s0, Words(["ls"]), intOf) == Reply(["docs"], s0, false)
            && Execute(s0, Words(["cd", "docs"]), intOf) == Reply([], s1, false)
            && Execute(s1, Words(["pwd"]), intOf) == Reply(["/docs"], s1, false)
  {
    var root := map["docs" := Dir(map["a.txt" := File(["x", "y", "x"])])];
    SortedSetUnique({"docs"}, ["docs"]);
    assert root.Keys == {"docs"};
    assert ["cd", "docs"][1..] == ["docs"];
    assert [] + ["docs"] == ["docs"];
    assert CdCommand(Mounted(ExampleTree(), []), ["docs"]) == Ok(([], Mounted(ExampleTree(), ["docs"])));
    assert Join(["docs"], "/") == "docs";
    assert Rooted(["docs"]) == "/docs";
  }

  /** In `docs`, `ls` lists `a.txt`, and `cd ..` returns to the root, where `pwd` prints `/`. */
  lemma ExampleLeaveDocs(intOf: string -> Option<int>)
    ensures var s0, s1 := Mounted(ExampleTree(), []), Mounted(ExampleTree(), ["docs"]);
            && Execute(s1, Words(["ls"]), intOf) == Reply(["a.txt"], s1, false)
            && Execute(s1, Words(["cd", ".."]), intOf) == Reply([], s0, false)
            && Execute(s0, Words(["pwd"]), intOf) == Reply(["/"], s0, false)
            && Execute(s0, Words(["foo"]), intOf) == Reply([UnknownCommandLine("foo")], s0, false)
  {
    var docs := map["a.txt" := File(["x", "y", "x"])];
    SortedSetUnique({"a.txt"}, ["a.txt"]);
    assert docs.Keys == {"a.txt"};
    assert Walk(ExampleTree(), ["docs"]) == Ok(Dir(docs)) by {
      assert ["docs"][1..] == [];
    }
    assert ["cd", ".."][1..] == [".."];
    assert ["docs"][..0] == [];
  }

  /** In `docs`, `read_file("a.txt")` returns the file's three lines. */
  lemma ExampleReadFile()
    ensures ReadCommandFile(Mounted(ExampleTree(), ["docs"]), "a.txt") == Ok(["x", "y", "x"])
  {
    var docs := map["a.txt" := File(["x", "y", "x"])];
    assert Walk(ExampleTree(), ["docs"]) == Ok(Dir(docs)) by {
      assert ["docs"][1..] == [];
    }
  }

  /** In `docs`, `cat a.txt` prints the three lines. */
  lemma ExampleCat(intOf: string -> Option<int>)
    ensures Execute(Mounted(ExampleTree(), ["docs"]), Words(["cat", "a.txt"]), intOf).output == ["x", "y", "x"]
  {
    ExampleReadFile();
    assert ["cat", "a.txt"][1..] == ["a.txt"];
  }

  /** `uniq` of the lines x, y, x is x, y. */
  lemma ExampleDedup()
    ensures Dedup(["x", "y", "x"]) == ["x", "y"]
  {
    DedupSnoc([], "x");
    assert [] + ["x"] == ["x"];
    DedupSnoc(["x"], "y");
    assert ["x"] + ["y"] == ["x", "y"];
    DedupSnoc(["x", "y"], "x");
    assert ["x", "y"] + ["x"] == ["x", "y", "x"];
  }

  /** In `docs`, `uniq a.txt` prints x and y. */
  lemma ExampleUniq(intOf: string -> Option<int>)
    ensures Execute(Mounted(ExampleTree(), ["docs"]), Words(["uniq", "a.txt"]), intOf).output == ["x", "y"]
  {
    ExampleReadFile();
    ExampleDedup();
    assert ["uniq", "a.txt"][1..] == ["a.txt"];
    assert UniqCommand(Mounted(ExampleTree(), ["docs"]), ["a.txt"]) == Ok(["x", "y"]);
  }

  /** In `docs`, `head a.txt 1` prints the first line. */
  lemma ExampleHead(intOf: string -> Option<int>)
    requires intOf("1") == Some(1)
    ensures Execute(Mounted(ExampleTree(), ["docs"]), Words(["head", "a.txt", "1"]), intOf).output == ["x"]
  {
    ExampleReadFile();
    assert ["head", "a.txt", "1"][1..] == ["a.txt", "1"];
    assert ["x", "y", "x"][..1] == ["x"];
  }

  // ---------------------------------------------------------------------------
  // The session object: the command methods write their lines in loops, as the
  // source does, and are proved against the functions above.
  // ---------------------------------------------------------------------------

  class Shell {
    const vfs: VirtualFileSystem?

    /** The navigator's state as the command functions see it. */
    ghost function State(): Mount
      reads vfs
    {
      if vfs == null then Unmounted else Mounted(vfs.tree, vfs.cwd)
    }

    /** The session: a navigator over `built` when the startup path gave a tree, none otherwise. */
    constructor (built: Option<DirNode>)
      ensures built.None? ==> vfs == null
      ensures built.Some? ==> vfs != null && fresh(vfs) && vfs.Valid()
      ensures State() == if built.None? then Unmounted else Mounted(built.value, [])
    {
      if built.None? {
        vfs := null;
      } else {
        vfs := new VirtualFileSystem(built.value);
      }
    }

    method CmdLs() returns (r: Result<seq<string>, Error>)
      ensures r == LsCommand(State())
    {
      if vfs == null {
        return Err(NoAttribute("NoneType", "ls"));
      }
      var names := vfs.Ls();
      if names.Err? {
        return Err(names.error);
      }
      var out: seq<string> := [];
      for i := 0 to |names.value|
        invariant out == names.value[..i]
      {
        out := out + [names.value[i]];
      }
      assert names.value[..|names.value|] == names.value;
      return Ok(out);
    }

    method CmdCd(args: seq<string>) returns (r: Result<seq<string>, Error>)
      modifies vfs
      ensures match CdCommand(old(State()), args)
              case Ok((out, next)) => r == Ok(out) && State() == next
              case Err(e) => r == Err(e) && State() == old(State())
    {
      if args == [] {
        return Ok([CD_USAGE]);
      }
      if vfs == null {
        return Err(NoAttribute("NoneType", "cd"));
      }
      var outcome := vfs.Cd(args[0]);
      if outcome.Fail? {
        return Err(outcome.error);
      }
      return Ok([]);
    }

    method CmdPwd() returns (r: Result<seq<string>, Error>)
      ensures r == PwdCommand(State())
    {
      if vfs == null {
        return Err(NoAttribute("NoneType", "pwd"));
      }
      return Ok([vfs.Pwd()]);
    }

    /** `read_file` through the possibly missing navigator. */
    method ReadFile(name: string) returns (r: Result<seq<string>, Error>)
      ensures r == ReadCommandFile(State(), name)
    {
      if vfs == null {
        return Err(NoAttribute("NoneType", "read_file"));
      }
      r := vfs.ReadFile(name);
    }

    method CmdCat(args: seq<string>) returns (r: Result<seq<string>, Error>)
      ensures r == CatCommand(State(), args)
    {
      if args == [] {
        return Ok([CAT_USAGE]);
      }
      var read := ReadFile(args[0]);
      if read.Err? {
        return read;
      }
      var lines := read.value;
      var out: seq<string> := [];
      for i := 0 to |lines|
        invariant out == lines[..i]
      {
        out := out + [lines[i]];
      }
      assert lines[..|lines|] == lines;
      return Ok(out);
    }

    method CmdHead(args: seq<string>, intOf: string -> Option<int>) returns (r: Result<seq<string>, Error>)
      ensures r == HeadCommand(State(), args, intOf)
    {
      if args == [] {
        return Ok([HEAD_USAGE]);
      }
      var name := args[0];
      var count := if |args| > 1 then intOf(args[1]) else Some(DEFAULT_HEAD_COUNT);
      if count.None? {
        return Err(InvalidInt(args[1]));
      }
      var read := ReadFile(name);
      if read.Err? {
        return read;
      }
      var shown := SliceTo(read.value, count.value);
      var out: seq<string> := [];
      for i := 0 to |shown|
        invariant out == shown[..i]
      {
        out := out + [shown[i]];
      }
      assert shown[..|shown|] == shown;
      return Ok(out);
    }

    method CmdUniq(args: seq<string>) returns (r: Result<seq<string>, Error>)
      ensures r == UniqCommand(State(), args)
    {
      if args == [] {
        return Ok([UNIQ_USAGE]);
      }
      var read := ReadFile(args[0]);
      if read.Err? {
        return read;
      }
      var lines := read.value;
      var seen: set<string> := {};
      var out: seq<string> := [];
      for i := 0 to |lines|
        invariant out == Dedup(lines[..i])
        invariant forall x :: x in seen <==> x in out
      {
        assert lines[..i + 1][..i] == lines[..i];
        if lines[i] !in seen {
          seen := seen + {lines[i]};
          out := out + [lines[i]];
        }
      }
      assert lines[..|lines|] == lines;
      return Ok(out);
    }

    /** `execute_command_line` on an already lexed line. */
    method ExecuteCommandLine(line: CommandLine, intOf: string -> Option<int>) returns (out: seq<string>, quit: bool)
      modifies vfs
      ensures Reply(out, State(), quit) == Execute(old(State()), line, intOf)
    {
      if line.LexError? {
        return [LexErrorLine(line.reason)], false;
      }
      var tokens := line.tokens;
      if tokens == [] {
        return [], false;
      }
      var cmd, args := tokens[0], tokens[1..];
      var r: Result<seq<string>, Error>;
      if cmd == "exit" {
        return [], true;
      } else if cmd == "ls" {
        r := CmdLs();
      } else if cmd == "cd" {
        r := CmdCd(args);
      } else if cmd == "pwd" {
        r := CmdPwd();
      } else if cmd == "cat" {
        r := CmdCat(args);
      } else if cmd == "head" {
        r := CmdHead(args, intOf);
      } else if cmd == "uniq" {
        r := CmdUniq(args);
      } else {
        return [UnknownCommandLine(cmd)], false;
      }
      out := if r.Ok? then r.value else [ErrorLine(r.error)];
      quit := false;
    }
  }
}
