# A verified model of the VirtualFileSystem navigator and its shell

The program snapshots a real directory tree into memory, then drives it from a
line-oriented command interpreter: `ls`, `cd`, `pwd`, `cat`, `head`, `uniq`
and `exit`. This project models two versions of the navigator and the final
version's command layer, and proves properties of each.

- `wrappers.dfy` (`Wrappers`): `Option`, `Result` and `Outcome`. Each
  exception the Python code raises becomes an error value.
- `pystrings.dfy` (`PyStrings`): the Python string and list built-ins the code
  relies on.
  - String ordering by code point (`Less`).
  - `sorted()` of a key set (`SortedSet`).
  - `sep.join`, one-character `split`, `strip`, `startswith`.
  - A filtering list comprehension (`Keep`).
  - The `"/" + "/".join(cwd)` form of `pwd` (`Rooted`).
  - `repr` of a string and the `.200` precision CPython uses when it puts
    one into an error message (`Repr`, `Truncate`).
- `step4_vfs.dfy` (`Step4Vfs`): the final navigator of `Step4.py`.
  - `VirtualFileSystem` is a class with a constant tree and a mutable `cwd`.
  - Each method walks or updates state the way the code does.
  - Each method is proved equal to a function of the tree and cwd, and
    lemmas state the behaviour of those functions.
  - `Valid()` means `cwd` names a chain of dicts. Every `cd` keeps it, and
    under it `_get_dir_ref` never raises.
- `step4_shell.dfy` (`Step4Shell`): the command layer of `Step4.py`.
  - `Execute` is the dispatcher as a function of the mount state and one
    lexed command line. It gives the lines written, the new state and
    whether the session ends.
  - `Shell` holds the possibly missing navigator. Its command methods loop
    over lines as the code does and are proved to match `Execute`.
  - `ScriptCommands` is the startup-script line filter for any set of
    stripped characters. `StartupScriptCommands` applies it with the
    whitespace that `str.strip()` removes.
- `step3_vfs.dfy` (`Step3Vfs`): the earlier navigator of `scripts/Step3.py`,
  with multi-component paths, modelled as written. Files are stored as
  `None`, so a path naming a file resolves exactly like a missing one.
  - Resolution always walks from the root, even for a relative path.
  - A `..` component never moves the walk.
  - `cd` stores the components of its argument as given, `..` included.

  These are proved as stated: `ChangeDirParentAppends` shows `cd("..")`
  appending a literal `..`. `Lookup` of the components with every `..`
  removed is an independent reference definition, and `WalkLoopIsLookup`
  ties the loop to it.

In `scripts/Step3.py` the code itself shows a different intent in places. The
model follows the code as written:

- Relative paths are resolved from the root. Yet `_resolve` copies `cwd` into
  `cur` (`scripts/Step3.py:37`), which suggests relative walks were meant to
  start at `cwd`. `cur` is updated, but its value never reaches the result.
- `..` does not move the walk. It only pops `cur`.
- `ls` of a file reports "not found", because files are stored as `None`. Yet
  the dispatcher prints a file marker for a `[None]` result
  (`scripts/Step3.py:145-146`). The `[None]` branch can never be taken, and
  `ListAtMeaning` proves this.

In `Step4.py`, `ls` takes no path, and `cd` treats its argument as one name
that it never splits on `/`. The "not found" error of `_get_dir_ref` carries
no path.

Errors carry the texts the code prints (`Message`). These include Python's
own messages for an `AttributeError` on `None` and on a list, and for `int()`
failing. The rejected literal is shown with `repr`, cut to 200 characters,
as CPython's `%.200R` does. "## Left out" says which characters' escapes
are not modelled.

## Model

| member | source | states |
|---|---|---|
| PyStrings.Less | Step4.py:42 | `<` on strings, as `sorted` compares keys: the first differing code point decides. `LessIrreflexive`, `LessAsymmetric`, `LessTransitive` and `LessTotal` make it a strict total order, and `LessOfPrefix` orders a prefix before its extensions. |
| PyStrings.LessOfPrefix | Step4.py:42 | A prefix is less than a string exactly when it is a proper prefix. |
| PyStrings.LessTotal | Step4.py:42 | Python's string order is total: two strings are equal or one is less. |
| PyStrings.LessTransitive | Step4.py:42 | Python's string order is transitive. |
| PyStrings.SortedSet | Step4.py:42 | `sorted(keys)` lists every key exactly once and nothing else, in strictly ascending code-point order. |
| PyStrings.SortedSetUnique | Step4.py:42 | Any strictly ascending sequence of exactly the keys is the output of `sorted`. |
| PyStrings.StrictlySortedHasNoDuplicates | Step4.py:42 | A strictly ascending listing has no repeated name. |
| PyStrings.Join | Step4.py:59 | `sep.join(parts)`. `SplitJoin` inverts it for parts without the separator. `JoinAppend` says how one more part extends it. `JoinStart` and `JoinEnd` give its first and last characters. |
| PyStrings.JoinStart | scripts/Step3.py:71 | A join starts with the first character of its first part. |
| PyStrings.JoinEnd | scripts/Step3.py:71 | A join ends with the last character of its last part. |
| PyStrings.Split | scripts/Step3.py:27 | `split("/")` yields at least one piece, and no piece contains the separator. |
| PyStrings.SplitJoin | scripts/Step3.py:27 | Splitting a join of slash-free parts gives back the parts. |
| PyStrings.StartsWith | scripts/Step3.py:26 | `startswith`. The absolute flag of `SplitComponents` holds exactly when it does, and `Rooted` output always satisfies it. |
| PyStrings.TrimStart | scripts/Step3.py:27 | `lstrip(chars)` leaves a suffix of the string. Every dropped character is in `chars`, and what is left does not start with one. |
| PyStrings.TrimEnd | scripts/Step3.py:27 | `rstrip(chars)` leaves a prefix of the string. Every dropped character is in `chars`, and what is left does not end with one. |
| PyStrings.Strip | Step4.py:193 | `strip(chars)` leaves neither end in `chars` and is no longer than its input. |
| PyStrings.StripAllOf | scripts/Step3.py:27 | A string made only of stripped characters strips to `""`, so `"/".strip("/")` is empty. |
| PyStrings.StripLeadingOne | scripts/Step3.py:27 | Stripping a stripped string with one stripped character in front removes just that character. |
| PyStrings.StripIdempotent | Step4.py:193 | A stripped line has no stripped character at either end, and stripping it again changes nothing. |
| PyStrings.Keep | scripts/Step3.py:27-29 | The comprehension keeps exactly the elements not in the dropped set. |
| PyStrings.KeepNothingDropped | scripts/Step3.py:27 | The comprehension leaves a list with nothing to drop unchanged. |
| PyStrings.Rooted | Step4.py:58-59 | `pwd` always starts with `/` and is exactly `/` at the root. |
| PyStrings.EscapeChar | Step4.py:171 | `repr` writes a character as itself exactly when it is not the quote, not a backslash and shown as itself. Otherwise it writes an escape of at least two characters starting with a backslash. |
| PyStrings.Repr | Step4.py:171 | `repr` of a string has the same quote at both ends. The quote is double exactly when the string holds a single quote and no double quote. The result is at least two characters longer than the string. |
| PyStrings.ReprOfPlain | Step4.py:171 | A string with no double quote, backslash or escaped character is shown as itself between quotes: single ones, or double ones when it holds a single quote. |
| PyStrings.Truncate | Step4.py:171 | The `.200` precision keeps a prefix of at most 200 characters, and all of a shorter string. |
| Step4Vfs.Message | Step4.py:35-66 | The text `str(e)` gives for each exception raised by the navigator, and by Python for a missing attribute, a list indexed by a name and a bad `int()` literal. `InvalidIntMessage` spells out the last one. |
| Step4Vfs.Walk | Step4.py:30-36 | The loop of `_get_dir_ref` can fail only on a non-empty path, and only with "path not found" or a list's missing `get`. `WalkAppend` says each name is one more `get`. |
| Step4Vfs.Listing | Step4.py:38-42 | `ls` succeeds exactly when `cwd` names a dict chain. It then gives every key of that directory once, strictly ascending. |
| Step4Vfs.ChangeDir | Step4.py:44-56 | `""`, `.` and `..` never fail. Any other success leaves `cwd` as it was or appends the path as one name. `..` gives a prefix of `cwd` at most one name shorter. |
| Step4Vfs.ReadFileAt | Step4.py:61-67 | What `read_file` returns is the line list of a file stored under that name in the current directory. |
| Step4Vfs.InvalidIntMessage | Step4.py:171 | A bad count of at most 198 characters with nothing to escape is printed in full between quotes. A longer one is cut to 200 characters counting the opening quote. |
| Step4Vfs.VirtualFileSystem.constructor | Step4.py:10-13 | A new navigator sits at the root of the given tree, which satisfies the invariant. |
| Step4Vfs.VirtualFileSystem.GetDirRef | Step4.py:30-36 | The walk reaches what `Walk` reaches. Under the invariant it yields a dict and never raises. |
| Step4Vfs.VirtualFileSystem.Ls | Step4.py:38-42 | Under the invariant, the result is every name of the current directory once, strictly ascending. |
| Step4Vfs.VirtualFileSystem.Cd | Step4.py:44-56 | Success sets `cwd` to the new list. Failure raises and leaves `cwd` unchanged. The invariant is kept. |
| Step4Vfs.VirtualFileSystem.ReadFile | Step4.py:61-67 | Under the invariant: a missing name is FileNotFound, a dict is IsADirectory, and a file returns exactly its stored lines (each an iff). |
| Step4Vfs.VirtualFileSystem.Pwd | Step4.py:58-59 | `pwd()` starts with `/` and is exactly `/` at the root. One level down it is `/` and the name. `PwdAfterChangeDir` gives the general step. |
| Step4Vfs.WalkAppend | Step4.py:32-35 | Walking one more name is one more `get` on the entry reached. |
| Step4Vfs.DirPathPrefix | Step4.py:47-49 | Dropping the last name of a dict chain leaves a dict chain. |
| Step4Vfs.ChangeDirKeepsDirPath | Step4.py:44-56 | Every successful `cd` from a dict chain leads to a dict chain. |
| Step4Vfs.ChangeDirSpecialNames | Step4.py:44-50 | `cd("")` and `cd(".")` change nothing. `cd("..")` drops the last name, and at the root it changes nothing, so `pwd` stays `/`. |
| Step4Vfs.ChangeDirIntoChild | Step4.py:51-56 | From a valid cwd: a missing name raises FolderNotFound, a file raises NotADirectory, and a dict name is appended unsplit. |
| Step4Vfs.ChangeDirThenUp | Step4.py:47-56 | `cd(name)` followed by `cd("..")` restores `cwd`. |
| Step4Vfs.JoinAppend | Step4.py:59 | Joining one more part adds the separator and the part. |
| Step4Vfs.PwdAfterChangeDir | Step4.py:56-59 | After a successful `cd(name)`, `pwd` is the old path with `/name` added. |
| Step4Shell.LexErrorLine | Step4.py:122 | The one line written when the lexer rejects a command line: `Ошибка парсера: ` and its reason. `Execute` writes exactly this line and changes nothing. |
| Step4Shell.UnknownCommandLine | Step4.py:142 | The line naming an unrecognised command. `ExecuteUnknownCommand` shows it is the only output. |
| Step4Shell.ErrorLine | Step4.py:144 | The catch-all line: `[Ошибка] ` followed by the exception's text. `ExecuteCatchesErrors` shows it is the only output and the state is unchanged. |
| Step4Shell.LsCommand | Step4.py:148-150 | `ls` succeeds only with a navigator, and its lines are strictly ascending. Under the invariant it lists exactly the current directory. |
| Step4Shell.CdCommand | Step4.py:152-155 | A successful `cd x` prints nothing, keeps the tree and leaves a navigator. `cd` with no argument leaves the state as it was. |
| Step4Shell.PwdCommand | Step4.py:157-158 | `pwd` succeeds exactly when there is a navigator, and prints one line starting with `/`. |
| Step4Shell.ReadCommandFile | Step4.py:61-67 | With a navigator, `read_file` returns the lines of a file stored under that name in the current directory. Without one it raises, as `ExecuteUnmounted` shows. |
| Step4Shell.CatCommand | Step4.py:160-165 | `cat f` prints exactly the stored lines of the file `f` in the current directory. |
| Step4Shell.HeadCommand | Step4.py:167-174 | `head f [n]` prints a prefix of the lines of `f`. `HeadSlices` says which prefix. |
| Step4Shell.UniqCommand | Step4.py:176-184 | `uniq f` prints no line twice, and prints exactly the distinct lines of `f`. |
| Step4Shell.Run | Step4.py:133-140 | Of the recognised commands only `cd` changes the navigator, and none makes one appear or vanish. |
| Step4Shell.Execute | Step4.py:118-146 | The session ends exactly on `exit`, which prints nothing. A lexer error prints one parser line and changes nothing. A navigator never appears or vanishes. |
| Step4Shell.SliceTo | Step4.py:173 | `lines[:n]` for every integer n: a prefix, clamped past the end, and for negative n all but the last abs(n) lines. |
| Step4Shell.Dedup | Step4.py:179-184 | `uniq` output has no repeated line and holds exactly the file's distinct lines. |
| Step4Shell.FirstIndex | Step4.py:180-184 | The first position of a line in the file. |
| Step4Shell.DedupSnoc | Step4.py:181-184 | A further line is printed exactly when it has not been seen before. |
| Step4Shell.DedupOfDistinct | Step4.py:176-184 | A file without repeated lines passes through `uniq` unchanged. |
| Step4Shell.DedupFirstOccurrence | Step4.py:180-184 | `uniq` prints lines in the order of their first occurrences. |
| Step4Shell.DedupIsSubsequence | Step4.py:180-184 | `uniq` output is a subsequence of the file. |
| Step4Shell.UniqOutput | Step4.py:176-184 | `uniq f` prints no line twice and every distinct line of f, keeps first-occurrence order, and is a subsequence of f. |
| Step4Shell.UniqOfDistinctIsCat | Step4.py:160-165 | For a file without repeated lines, `uniq` prints what `cat` prints. |
| Step4Shell.HeadCoversCat | Step4.py:167-174 | `head f n` with n at least the line count prints what `cat f` prints, and so does `head f` for files of at most 10 lines. |
| Step4Shell.HeadSlices | Step4.py:167-174 | Without a file only the usage line is printed. A bad count fails before the read. Otherwise `head f n` prints `SliceTo` of the file's lines, which is Python's `lines[:n]`, and `head f` prints `lines[:10]`. |
| Step4Shell.ExecuteBlankLine | Step4.py:125-127 | A line with no words prints nothing and changes nothing. |
| Step4Shell.ExecuteUnknownCommand | Step4.py:141-142 | An unknown command prints exactly one line naming it. |
| Step4Shell.ExecuteCatchesErrors | Step4.py:132-144 | An exception in a command becomes exactly one `[Ошибка] ` line, and the state is unchanged. |
| Step4Shell.ExecuteCdWithoutArgument | Step4.py:152-154 | `cd` with no argument prints its usage line and does not move. |
| Step4Shell.ExecuteUnmounted | Step4.py:148-163 | With no navigator, `ls`, `pwd`, `cd x`, `cat x` and `uniq x` each print one AttributeError line. |
| Step4Shell.ExecuteKeepsInvariant | Step4.py:118-146 | Every command line keeps the navigator's invariant, and only `cd` can move it. |
| Step4Shell.FailedCdKeepsPwd | Step4.py:152-158 | After a failing `cd`, `pwd` prints what it printed before. |
| Step4Shell.ScriptLine | Step4.py:193-195 | A raw line is kept exactly when its stripped form is non-empty and not a `#` comment, and it is kept stripped. |
| Step4Shell.ScriptCommands | Step4.py:192-196 | The kept script lines are at most the raw lines, each non-empty, stripped and not a comment. |
| Step4Shell.StartupScriptCommands | Step4.py:192-196 | With `strip()`'s whitespace, every kept line is non-empty, not a comment, and neither starts nor ends with whitespace. There are at most as many as raw lines. |
| Step4Shell.Kept | Step4.py:194-196 | One raw line contributes at most one command. |
| Step4Shell.ScriptCommandsCons | Step4.py:192-196 | The first raw line's contribution comes before the rest's. |
| Step4Shell.ScriptCommandsConcat | Step4.py:192-196 | The filter is decided line by line, in file order. |
| Step4Shell.ScriptCommandsOfLine | Step4.py:193-196 | A single line contributes its stripped form exactly when that is non-empty and not a comment. |
| Step4Shell.ExampleEnterDocs | Step4.py:38-59 | Worked session: `ls` shows `docs`, `cd docs` succeeds, and `pwd` prints `/docs`. |
| Step4Shell.ExampleLeaveDocs | Step4.py:38-59 | Worked session: `ls` in `docs` shows `a.txt`, `cd ..` returns to `/`, and an unknown command is named. |
| Step4Shell.ExampleReadFile | Step4.py:61-67 | Worked session: in `docs`, `read_file("a.txt")` returns the stored lines x, y, x. |
| Step4Shell.ExampleCat | Step4.py:160-165 | Worked session: `cat a.txt` prints x, y, x. |
| Step4Shell.ExampleUniq | Step4.py:176-184 | Worked session: `uniq a.txt` prints x, y. |
| Step4Shell.ExampleHead | Step4.py:167-174 | Worked session: `head a.txt 1` prints x. |
| Step4Shell.Shell.constructor | Step4.py:92-96 | The session has a navigator at the root exactly when the startup tree was built. |
| Step4Shell.Shell.CmdLs | Step4.py:148-150 | Writes the listing line by line, as the dispatcher function says. |
| Step4Shell.Shell.CmdCd | Step4.py:152-155 | Moves the navigator exactly as the dispatcher function says, and leaves it unchanged on failure. |
| Step4Shell.Shell.CmdPwd | Step4.py:157-158 | Writes the one `pwd` line. |
| Step4Shell.Shell.ReadFile | Step4.py:163 | `read_file` through the possibly missing navigator. |
| Step4Shell.Shell.CmdCat | Step4.py:160-165 | Writes every stored line of the file, in order. |
| Step4Shell.Shell.CmdHead | Step4.py:167-174 | Writes `lines[:n]` line by line. |
| Step4Shell.Shell.CmdUniq | Step4.py:176-184 | The loop with its `seen` set writes exactly `Dedup` of the file. |
| Step4Shell.Shell.ExecuteCommandLine | Step4.py:118-146 | One command line gives the output, the new state and the exit flag that `Execute` specifies. |
| Step3Vfs.Message | scripts/Step3.py:53-66 | The texts of the two exceptions `ls` and `cd` raise. |
| Step3Vfs.SplitComponents | scripts/Step3.py:25-30 | The absolute flag holds iff the path starts with `/`. No component is empty or contains `/`. A relative path has no `.`. `/` gives no components. |
| Step3Vfs.SplitComponentsOfRelative | scripts/Step3.py:29-30 | A relative path of well-formed components splits back into them, losing exactly the `.` ones. |
| Step3Vfs.KeptComponents | scripts/Step3.py:27-29 | Dropping the empty pieces of a split leaves components with no empty one and none containing `/`. |
| Step3Vfs.RootHasNoComponents | scripts/Step3.py:26-28 | `"/"` has no components. |
| Step3Vfs.Get | scripts/Step3.py:45 | `dict.get`: the child, or `None` for a missing key. `LookupAppend` and `FileLooksMissing` state what it does to a walk. |
| Step3Vfs.WalkLoop | scripts/Step3.py:38-49 | The loop returns no remainder or every component, and no remainder whenever it reaches a node. `WalkLoopIsLookup` ties it to `Lookup`. |
| Step3Vfs.ResolvePath | scripts/Step3.py:32-49 | `_resolve` returns no remainder or every component of the path, and no remainder whenever it reaches a node. `ResolveReachesTarget` says which node. |
| Step3Vfs.Lookup | scripts/Step3.py:43-47 | The reference reading of a component list: a lookup that reaches a node passes through a dict holding the first name. `LookupOfNone` and `LookupAppend` state the rest. |
| Step3Vfs.Target | scripts/Step3.py:32-34 | `""`, `.` and `/` name the root. `ResolveReachesTarget` says `_resolve` reaches the target. |
| Step3Vfs.ListAt | scripts/Step3.py:51-57 | `ls` can fail only with "not found", and the names it lists are strictly ascending. `ListAtMeaning` says when it fails. |
| Step3Vfs.ChangeDir | scripts/Step3.py:59-68 | `cd("")` and `cd(".")` return `cwd` unchanged. A relative `cd` only extends `cwd`, and a well-formed `cwd` stays well formed. `ChangeDirMeaning` says when any other path fails and what it stores. |
| Step3Vfs.LookupOfNone | scripts/Step3.py:46-47 | Nothing can be looked up under `None`. |
| Step3Vfs.ResolveTrivialPaths | scripts/Step3.py:32-36 | `""`, `.` and `/` all resolve to the root with no remainder. |
| Step3Vfs.WalkLoopIsLookup | scripts/Step3.py:36-49 | The loop fails exactly when the reference lookup, with `..` removed, gives `None`. On failure it returns every component; otherwise it returns that node and nothing left over. |
| Step3Vfs.ResolveReachesTarget | scripts/Step3.py:32-49 | `_resolve` reaches the node named by the components read from the root with `..` discarded, whatever `cwd` is. |
| Step3Vfs.ResolveDropsParents | scripts/Step3.py:38-42 | Resolving the components equals resolving them with every `..` removed. |
| Step3Vfs.ResolveOutcome | scripts/Step3.py:43-49 | The result is a dict iff the remainder is empty. On failure the remainder is every component. |
| Step3Vfs.LookupAppend | scripts/Step3.py:45-47 | Following one more name is `dict.get` at the node reached. |
| Step3Vfs.FileLooksMissing | scripts/Step3.py:45-47 | One more name ends in `None` iff it is missing or bound to a file (stored as `None`). |
| Step3Vfs.FileIsNotFound | scripts/Step3.py:51-66 | `ls` and `cd` on the absolute path of a file raise "not found", as for a missing name. |
| Step3Vfs.ListAtMeaning | scripts/Step3.py:51-57 | `ls` fails exactly when the path names nothing. Otherwise it lists that dict's keys sorted, and never returns `[None]`. |
| Step3Vfs.ChangeDirMeaning | scripts/Step3.py:59-68 | `cd` fails exactly when the path names nothing, never with NotADirectoryError. On success it stores the path's components, or appends them for a relative path. |
| Step3Vfs.ChangeDirParentAppends | scripts/Step3.py:39-42 | `cd("..")` always succeeds and appends a literal `..`. |
| Step3Vfs.ChangeDirRootClears | scripts/Step3.py:67-68 | `cd("/")` always succeeds and empties `cwd`. |
| Step3Vfs.ChangeDirKeepsWellFormed | scripts/Step3.py:67-68 | Whatever `cd` stores has no empty component and none containing `/`. |
| Step3Vfs.StripRooted | scripts/Step3.py:27 | Stripping the slashes of `pwd` output leaves the join of the components. |
| Step3Vfs.SplitComponentsOfPwd | scripts/Step3.py:25-28 | An absolute path of well-formed components, such as the output of `pwd`, splits back into exactly those components, `.` and `..` included. |
| Step3Vfs.ChangeDirToPwd | scripts/Step3.py:59-71 | `cd(pwd())` either fails or leaves `cwd` as it was. |
| Step3Vfs.VirtualFileSystem.constructor | scripts/Step3.py:10-13 | A new navigator starts at the root with a well-formed `cwd`. |
| Step3Vfs.VirtualFileSystem.Resolve | scripts/Step3.py:32-49 | The loop, with `cur` updated but its value never reaching the result, returns what `ResolvePath` specifies, and it does not touch `cwd`. |
| Step3Vfs.VirtualFileSystem.Ls | scripts/Step3.py:51-57 | `ls` fails iff the path names nothing. Otherwise it returns names, strictly ascending, no duplicates, exactly that dict's keys. |
| Step3Vfs.VirtualFileSystem.Cd | scripts/Step3.py:59-68 | Success stores the new components. Failure leaves `cwd` unchanged. `cwd` stays well formed. |
| Step3Vfs.VirtualFileSystem.Pwd | scripts/Step3.py:70-71 | Under the invariant, `pwd` reads back to `cwd` as an absolute path. |

## Left out

- Building the tree (`_build_tree` in both versions) is left out. It does filesystem I/O and decoding. The tree is a constructor argument, and a file that could not be read is a `File` with its one sentinel line.
- The shell-style lexer (`shlex.split`) is left out because it is a library. A command line arrives already split into words, or as the lexer's error text.
- `int()` in `head` is left out because it is library parsing. It is the parameter `intOf`, which returns no value for an unparsable count. The ValueError text covers only the "invalid literal" form. Python's different message for a count of more than 4300 digits is not modelled.
- PyStrings.EscapeChar: `repr` escapes of characters above U+00FF are not modelled, because which of them are printable depends on the Unicode database. The model writes every one of them as itself. Below U+0100 it escapes what Python escapes.
- The Tk window is left out because it is presentation: widget setup, writing output and the prompt, `on_enter` echoing the raw line, `quit`, and the deferred `after` call.
- `argparse` and the mount decision (`os.path.isdir`) are left out because they are I/O. The shell's constructor takes the built tree or nothing.
- `run_startup_script`'s file handling is left out because it is I/O: opening the file, the missing-file message, the banner lines, echoing each kept line, and the per-line exception report. The line filter itself is modelled, and a kept line goes through `Execute` like any other.
- Step1.py, Step2.py and the dispatcher of scripts/Step3.py are not part of this model. The first two have no filesystem logic, and only the Step3 navigator is modelled.
- Names are modelled as sequences of Unicode scalar values (Dafny `char`). On POSIX, `os.listdir` in `_build_tree` turns name bytes that are not valid UTF-8 into lone surrogates U+DC80 to U+DCFF. Such names are outside the model, so `SortedSet`, `Step4Vfs.Listing`, `Step3Vfs.ListAt` and both `Ls` methods are proved only for trees whose names decode, and `repr`'s `\udcXX` escapes are not modelled.
- Python dict insertion order is not modelled. Directories are maps, and every listing sorts.
- Step4Vfs.VirtualFileSystem.Ls: with `cwd` not naming a dict (impossible under `Valid()`), the code's NotADirectoryError branch is modelled, but no property is stated about it.
- Step3Vfs.VirtualFileSystem.Ls and Step3Vfs.VirtualFileSystem.Cd: the code's `isinstance` tests after a `None` check cannot fail, because every non-`None` node is a dict. The methods omit those branches, the specification functions keep them, and `ListAtMeaning` and `ChangeDirMeaning` prove them dead.
