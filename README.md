# ipbb dependency parser and Vivado project generator in Dafny

This project models two parts of ipbb, the IPbus firmware build tool. It
also proves properties of both.

- **The dependency-file parser** (`DepFileParser`) reads `.dep` files line
  by line and follows `include` directives into other dep files. Parsing
  has three stages:
  - pre-processing handles `@name = expr` assignments, `?cond?` prefixes
    and `$var` substitution;
  - the directive grammar reads `include`, `setup`, `util`, `src`,
    `addrtab` and `iprepo` lines;
  - post-processing expands each file expression into the files it
    matches, and either recurses into them or records them as typed
    commands.

  The parser also logs the expressions that matched nothing (its `missing*`
  views) and the lines it rejected. When the outermost file is done, it
  removes repeated commands and components.
- **The typed command records** of `_cmdtypes.py`: their flags and their
  equality, including the quirks of Python's reflected `==`.
- **The Vivado project generator** (`VivadoProjectGenerator`) turns a
  command list into a Tcl project script:
  - `fileset` picks the fileset of a source file;
  - `write` emits the header, the source commands (one by one, or grouped
    by template in turbo mode), the top-level settings, the IP runs and
    the final setup scripts.

The layout follows the source:

- **Pure code becomes values.** Stateless code is written as datatypes,
  functions and lemmas: `CmdTypes`, `DepGrammar`, `Text`, `Template`,
  `Values`, and `fileset` together with the script structure in `Vivado`.
- **Stateful code becomes classes:**
  - `DepParser.DepFileParser` is a class. Its fields are the parser's
    fields, and its methods update them step by step, as `parse`,
    `pre_process` and `post_process` do.
  - Each method is proved to leave the object in exactly the state given
    by a function of `DepModel` (`ParseFile`, `PostAll`, `ExpandAll`,
    `AddCommands`, …) applied to its old state.
  - The properties of the parser are then proved about those functions
    (`DepProperties`), so they hold for the object.
  - In the same way, `Vivado.VivadoProjectGenerator.Write` produces the
    lines of `Vivado.Script`, and `VivadoProperties` proves what that
    script contains.
- **The outside world is a parameter:**
  - `DepModel.Env` stands for the path maker, the filesystem and Python's
    `eval`.
  - `Vivado.Host` stands for the clock, `abspath` and the default top
    entity.
  - The output callback of `write` becomes the sequence of lines written.
- **The generator's settings are the parser's variables** (`Vivado.Settings`
  maps names to `Values.Value`). Every value is written through its `str()`
  and the simulation top is tested by its truth value, so a false, zero or
  empty setting writes no `sim_1` line.

## Model

| member | source | states |
|---|---|---|
| DepModel.Flags | src/ipbb/depparser/DepFileParser.py:45-55 | `noinclude`, `top`, `vhdl2008` and `finalise` each appear exactly when the command is excluded, top-level, VHDL-2008 or a finalise script; one entry per such flag |
| DepModel.Reverse | src/ipbb/depparser/DepFileParser.py:616-619 | the reversed list has the same length and holds element `i` of the original at position `n-1-i` |
| DepModel.AppendAt | src/ipbb/depparser/DepFileParser.py:555 | `setdefault(k, []).append(v)`: the key is added, the list at `k` gains `v` at its end, and every other key keeps its list |
| DepModel.PreProcess | src/ipbb/depparser/DepFileParser.py:387-451 | pre-processing never unsets or changes a variable that is already set, and a line that sets one yields no text to parse |
| DepModel.Assign | src/ipbb/depparser/DepFileParser.py:402-416 | an `@` assignment keeps every variable already set, and it yields nothing when it changes the table |
| DepModel.StripOfTarget | src/ipbb/depparser/DepFileParser.py:406-411 | for a valid assignment target, the name the `already defined` test strips is the name `exec` binds |
| DepModel.ReadLine | src/ipbb/depparser/DepFileParser.py:591-613 | one line keeps every set variable; the only faults that escape without an error record are template errors and argument rejections by a sub-parser |
| DepModel.ReadLines | src/ipbb/depparser/DepFileParser.py:587-613 | the first loop changes only the variables and the error log. On success the log is unchanged and the parsed lines are kept in order. On failure, `Parsing failed` names this file and a line of it, and exactly one record for that line is added |
| DepModel.ExpandAll | src/ipbb/depparser/DepFileParser.py:484-506 | the expansion loop changes only the components, the missing log and the current file record; the record is only extended and the log only grows |
| DepModel.AddOne | src/ipbb/depparser/DepFileParser.py:550-555 | one command changes only the command lists, the file record (extended) and the reverse-dependency map |
| DepModel.AddFiles | src/ipbb/depparser/DepFileParser.py:542-555 | the file loop changes only the command lists, the file record (extended) and the reverse-dependency map |
| DepModel.AddLists | src/ipbb/depparser/DepFileParser.py:541-555 | the list loop changes only the command lists, the file record (extended) and the reverse-dependency map |
| DepModel.AddCommands | src/ipbb/depparser/DepFileParser.py:517-555 | a non-include line also appends its library to `libs` exactly when `-l` names a non-empty one; nothing else outside the command bookkeeping changes |
| DepModel.DedupSound | src/ipbb/depparser/DepFileParser.py:641-646 | the deduplicated list has no two equal commands, holds only commands of the input, and every input command has an equal in it |
| DepModel.Unique | src/ipbb/depparser/DepFileParser.py:649-656 | a package's component list without repeats has no name twice and holds exactly the names of the input |
| DepModel.Leave | src/ipbb/depparser/DepFileParser.py:630-656 | leaving a file lowers the depth by one and appends its record to the enclosing one, which becomes current; at depth 0 no command list holds two equal commands; the logs and variables are untouched |
| DepModel.ParseFile | src/ipbb/depparser/DepFileParser.py:559-657 | `parse` only adds to the missing, error and library logs and never changes a set variable. On success it restores the depth and appends the file's record to the enclosing one. After the outermost file, no command list holds two equal commands |
| DepModel.ParseLines | src/ipbb/depparser/DepFileParser.py:587-657 | reading and processing an existing file only grows the logs. On success the depth drops back by one and the record is closed into its parent. At depth 0 the lists are distinct |
| DepModel.Process | src/ipbb/depparser/DepFileParser.py:616-657 | the second loop and the return one level up keep those same guarantees |
| DepModel.PostAll | src/ipbb/depparser/DepFileParser.py:621-622 | processing the parsed lines only grows the logs and extends the current record; success keeps the depth |
| DepModel.PostProcess | src/ipbb/depparser/DepFileParser.py:454-555 | `post_process` only grows the logs and extends the current record; success keeps the depth |
| DepModel.PostLine | src/ipbb/depparser/DepFileParser.py:457-555 | the same for a line that names a directive |
| DepModel.Dispatch | src/ipbb/depparser/DepFileParser.py:512-555 | the same for the include-or-add branch |
| DepModel.IncludeLists | src/ipbb/depparser/DepFileParser.py:512-515 | including every matched file of every list keeps the same guarantees |
| DepModel.IncludeFiles | src/ipbb/depparser/DepFileParser.py:513-515 | including the files of one list keeps the same guarantees |
| DepParser.ToolsetVar | src/ipbb/depparser/DepFileParser.py:231-238 | the `toolset` variable is always one of `ISE`, `Vivado`, `Modelsim`, `other` |
| DepParser.DepFileParser.Init | src/ipbb/depparser/DepFileParser.py:201-219 | a new parser stores its environment and toolset and starts at depth 0 with no file record, empty lists and logs, and the given variables |
| DepParser.DepFileParser.Create | src/ipbb/depparser/DepFileParser.py:201-251 | the constructor fails exactly when the overrides do, with the same fault; otherwise the new parser's state is the initial one over the overridden variables plus `toolset` |
| DepParser.DepFileParser.PreProcess | src/ipbb/depparser/DepFileParser.py:387-451 | the method yields the result of `DepModel.PreProcess` and changes only the variables |
| DepParser.DepFileParser.AssignVar | src/ipbb/depparser/DepFileParser.py:402-416 | the `@` branch yields the result of `DepModel.Assign` and changes only the variables |
| DepParser.DepFileParser.Parse | src/ipbb/depparser/DepFileParser.py:559-657 | after `parse`, the object's state and outcome are those of `DepModel.ParseFile` on its old state |
| DepParser.DepFileParser.ReadAndProcess | src/ipbb/depparser/DepFileParser.py:587-657 | the two loops and the return leave the state and outcome of `DepModel.ParseLines` |
| DepParser.DepFileParser.ProcessAll | src/ipbb/depparser/DepFileParser.py:616-657 | reversal, the second loop and the return leave the state of `DepModel.Process` |
| DepParser.DepFileParser.PostProcessAll | src/ipbb/depparser/DepFileParser.py:621-622 | the second loop leaves the state of `DepModel.PostAll` |
| DepParser.DepFileParser.LeaveFile | src/ipbb/depparser/DepFileParser.py:630-656 | the end of `parse` leaves the state of `DepModel.Leave` |
| DepParser.DepFileParser.ReadAll | src/ipbb/depparser/DepFileParser.py:587-613 | the first loop leaves the state and outcome of `DepModel.ReadLines` |
| DepParser.DepFileParser.ReadOne | src/ipbb/depparser/DepFileParser.py:591-613 | one line changes only the variables, as `DepModel.ReadLine` says |
| DepParser.DepFileParser.PostProcess | src/ipbb/depparser/DepFileParser.py:454-555 | `post_process` leaves the state of `DepModel.PostProcess` |
| DepParser.DepFileParser.PostLine | src/ipbb/depparser/DepFileParser.py:457-555 | a directive leaves the state of `DepModel.PostLine` |
| DepParser.DepFileParser.Dispatch | src/ipbb/depparser/DepFileParser.py:512-555 | the include-or-add branch leaves the state of `DepModel.Dispatch` |
| DepParser.DepFileParser.ExpandExprs | src/ipbb/depparser/DepFileParser.py:484-506 | the expansion loop leaves the state and file lists of `DepModel.ExpandAll` |
| DepParser.DepFileParser.IncludeAll | src/ipbb/depparser/DepFileParser.py:512-515 | the include loop leaves the state of `DepModel.IncludeLists` |
| DepParser.DepFileParser.AddAll | src/ipbb/depparser/DepFileParser.py:517-555 | the non-include branch leaves the state of `DepModel.AddCommands` |
| DepParser.DepFileParser.AddFilesOf | src/ipbb/depparser/DepFileParser.py:541-555 | the file loop leaves the state of `DepModel.AddFiles` |
| DepParser.DepFileParser.AddCommand | src/ipbb/depparser/DepFileParser.py:550-555 | one command leaves the state of `DepModel.AddOne` |
| DepParser.DepFileParser.Uniquify | src/ipbb/depparser/DepFileParser.py:639-656 | the deduplication at depth 0 leaves the state of `DepModel.Uniquify` |
| DepParser.DepFileParser.DedupAll | src/ipbb/depparser/DepFileParser.py:641-646 | every command list is replaced by its deduplication and nothing else changes |
| DepParser.DepFileParser.UniqueComponents | src/ipbb/depparser/DepFileParser.py:649-656 | every package's component list is replaced by its list without repeats and nothing else changes |
| DepParser.DepFileParser.DedupCommands | src/ipbb/depparser/DepFileParser.py:642-646 | the `lTemp` loop computes `Dedup` of the list |
| DepParser.DepFileParser.UniqueNames | src/ipbb/depparser/DepFileParser.py:650-656 | the `lTemp`/`lAdded` loop computes `Unique` of the list |
| DepParser.DepFileParser.MissingPaths | src/ipbb/depparser/DepFileParser.py:331-338 | the loop computes `PathsOf` of the missing log |
| DepParser.DepFileParser.MissingFiles | src/ipbb/depparser/DepFileParser.py:342-357 | the loop computes `FilesOf` of the missing log |
| DepParser.DepFileParser.MissingComponents | src/ipbb/depparser/DepFileParser.py:361-371 | the loop computes `ComponentsOf` of the missing log |
| DepParser.DepFileParser.MissingPackages | src/ipbb/depparser/DepFileParser.py:375-384 | the loop computes `PackagesOf` of the missing log |
| DepParser.PathsOf | src/ipbb/depparser/DepFileParser.py:331-338 | `missingPaths` holds exactly the path expressions of the missing entries |
| DepParser.PackagesOf | src/ipbb/depparser/DepFileParser.py:375-384 | `missingPackages` holds exactly the packages of missing entries whose package directory does not exist |
| DepProperties.BlankOrComment | src/ipbb/depparser/DepFileParser.py:391-397 | a blank or `#` line yields nothing and sets nothing |
| DepProperties.AssignNotKeyValue | src/ipbb/depparser/DepFileParser.py:403-405 | an `@` line without exactly one `=` is rejected as not `key=value`, with the variables untouched |
| DepProperties.AssignFirstWins | src/ipbb/depparser/DepFileParser.py:406-408 | an `@` line for a name that is already set is skipped: nothing changes and nothing is yielded |
| DepProperties.AssignSets | src/ipbb/depparser/DepFileParser.py:409-411 | a new, valid name whose expression evaluates is bound to its value, and nothing is yielded |
| DepProperties.AssignYieldsNothing | src/ipbb/depparser/DepFileParser.py:402-416 | an `@` line never yields text to parse |
| DepProperties.ConditionalCount | src/ipbb/depparser/DepFileParser.py:421-427 | a `?` line whose count of `?` is not two is rejected, and the fault carries that count |
| DepProperties.QuestionMarksAt | src/ipbb/depparser/DepFileParser.py:422-423 | on a line starting with `?` that holds exactly two `?`, the positions found are 0 and the second one |
| DepProperties.ConditionalCases | src/ipbb/depparser/DepFileParser.py:429-443 | the text between the two `?` is evaluated: false drops the line, true keeps the stripped rest, a failure or a non-boolean value rejects the line |
| DepProperties.ConditionalThenSubstitutes | src/ipbb/depparser/DepFileParser.py:443-451 | the kept rest of a true condition is then substituted with the variables |
| DepProperties.KeptLine | src/ipbb/depparser/DepFileParser.py:446-451 | any line the conditional keeps is then substituted with the variables |
| DepProperties.LastSegmentIsSuffix | src/ipbb/depparser/DepFileParser.py:472 | the last `/`-segment of a component name is a suffix of it that holds no `/`, and it follows a `/` unless it is the whole name |
| DepProperties.ExprsChoice | src/ipbb/depparser/DepFileParser.py:471-479 | a directive without files stands for the default name of its last segment; otherwise for its files; in reverse order for `.dep` files |
| DepProperties.MissesFrom | src/ipbb/depparser/DepFileParser.py:503-504 | every miss logged by a directive carries its kind, package, component and dep file |
| DepProperties.FoundFrom | src/ipbb/depparser/DepFileParser.py:495-496 | every file list kept is non-empty |
| DepProperties.MissesAndFound | src/ipbb/depparser/DepFileParser.py:484-506 | every file expression either misses or is found: the two counts add up to the number of expressions |
| DepProperties.ExpandAllMisses | src/ipbb/depparser/DepFileParser.py:501-504 | the expansion loop appends exactly the misses of the expressions, in order |
| DepProperties.ExpandAllFound | src/ipbb/depparser/DepFileParser.py:495-496 | the expansion loop keeps exactly the non-empty file lists, in order |
| DepProperties.ExpandAllComponents | src/ipbb/depparser/DepFileParser.py:497-499 | the component is appended to its package once per found list, and no other package changes |
| DepProperties.Stamped | src/ipbb/depparser/DepFileParser.py:542-551 | one file list yields one command per file, in order, each the directive's prototype with that file's path |
| DepProperties.StampedAll | src/ipbb/depparser/DepFileParser.py:541-551 | every command of several lists is the prototype with some path |
| DepProperties.StampedAllCovers | src/ipbb/depparser/DepFileParser.py:541-551 | every matched file of every list has its command |
| DepProperties.AddFilesLog | src/ipbb/depparser/DepFileParser.py:542-553 | the file loop appends exactly the stamped commands to its directive's list and leaves the other lists alone |
| DepProperties.AddFilesGrows | src/ipbb/depparser/DepFileParser.py:555 | the file loop only ever extends the list of dep files recorded for a file |
| DepProperties.AddFilesRevDep | src/ipbb/depparser/DepFileParser.py:555 | after the file loop, every matched file lists the dep file that added it |
| DepProperties.AddListsLog | src/ipbb/depparser/DepFileParser.py:541-553 | the list loop appends the commands of every list, list after list |
| DepProperties.AddCommandsLog | src/ipbb/depparser/DepFileParser.py:517-555 | a non-include line appends one command per matched file to its own list and leaves the other lists alone. Every command carries the line's package, component and library, `include` unless `-n`, the top-level and finalise flags, and `vhdl2008` only for `src` |
| DepProperties.FoundStamped | src/ipbb/depparser/DepFileParser.py:484-496 | stamping the kept file lists gives, expression after expression, one command per file each expression matches; an expression that matches nothing contributes nothing |
| DepProperties.StampedReverse | src/ipbb/depparser/DepFileParser.py:490-491 | stamping a reversed file list gives the commands of the list in reverse |
| DepProperties.LineCommandsReversed | src/ipbb/depparser/DepFileParser.py:478-491 | with `aReverse` set, a line's commands are exactly its in-order commands reversed, because both its expressions and each expression's files are taken in reverse |
| DepProperties.LinesReversed | src/ipbb/depparser/DepFileParser.py:616-622 | lines taken in reverse, each giving its reversed commands, give the reverse of the in-order commands of all the lines |
| DepProperties.PostLineCommands | src/ipbb/depparser/DepFileParser.py:454-555 | `post_process` on a non-include line succeeds and appends that line's commands to its directive's list; every other list is unchanged |
| DepProperties.PostAllCommands | src/ipbb/depparser/DepFileParser.py:621-622 | the loop over lines that are all non-include directives succeeds and appends to each list the commands of the lines, in the order the loop takes them |
| DepProperties.FileLinesCommands | src/ipbb/depparser/DepFileParser.py:616-622 | over such lines, each list gains the in-order commands of the file's lines, or exactly their reverse when the file is a `.dep` file |
| DepProperties.LeaveCommands | src/ipbb/depparser/DepFileParser.py:630-646 | going back one level deduplicates the lists when that reaches depth 0 and leaves them unchanged otherwise |
| DepProperties.LinesThenLeave | src/ipbb/depparser/DepFileParser.py:616-646 | the second loop followed by going back up keeps the depth until the step up, and leaves each list as the gained commands appended to it, deduplicated only at the outermost file |
| DepProperties.ProcessResult | src/ipbb/depparser/DepFileParser.py:616-646 | `parse` after its first loop is the second loop over the lines, reversed for a `.dep` file, then the step up: whatever those leave in a list, `parse` leaves there, without error |
| DepProperties.ProcessCommands | src/ipbb/depparser/DepFileParser.py:616-646 | a file whose lines are all non-include directives is processed without error. Each list gains the commands of the lines, each line's stamped file lists in order; for a `.dep` file it gains exactly their reverse. At the outermost file the result is deduplicated |
| DepProperties.ParseFileMissing | src/ipbb/depparser/DepFileParser.py:567-585 | `parse` on a dep file that does not exist fails with its path. It logs the file as a missing `include` entry, and leaves the depth raised and the new record current, with nothing else changed |
| DepProperties.DedupIsFirsts | src/ipbb/depparser/DepFileParser.py:641-646 | the deduplicated list is exactly the input filtered to the commands with no equal earlier in it, in input order |
| DepProperties.UniqueIsNew | src/ipbb/depparser/DepFileParser.py:649-656 | the component list after removing repeats is exactly the input filtered to the first occurrence of each name, in input order |
| DepProperties.DedupKeepsFirst | src/ipbb/depparser/DepFileParser.py:641-646 | every command the deduplication keeps is the first of the input that equals it |
| DepProperties.DedupOfDistinct | src/ipbb/depparser/DepFileParser.py:641-646 | a list without equal commands is left as it is |
| DepProperties.DedupIdempotent | src/ipbb/depparser/DepFileParser.py:641-646 | deduplicating twice is deduplicating once |
| DepProperties.UniqueOfDistinct | src/ipbb/depparser/DepFileParser.py:649-656 | a component list without repeats is left as it is |
| DepProperties.UniqueIdempotent | src/ipbb/depparser/DepFileParser.py:649-656 | removing repeated components twice is removing them once |
| DepProperties.UniquifyIdempotent | src/ipbb/depparser/DepFileParser.py:639-656 | the depth-0 clean-up applied twice changes nothing more |
| DepProperties.OverridesFail | src/ipbb/depparser/DepFileParser.py:224-226 | the overrides fail exactly when one of them is not one `key=value` pair, and then with the first such one |
| DepProperties.OverridesKeep | src/ipbb/depparser/DepFileParser.py:224-226 | a name that no override sets keeps its value, or stays unset |
| DepProperties.OverridesLastWins | src/ipbb/depparser/DepFileParser.py:224-226 | of several overrides of one name, the last one sets its value |
| DepProperties.InitialToolset | src/ipbb/depparser/DepFileParser.py:224-238 | a new parser fails exactly when some override is malformed; otherwise `toolset` is the name of the tool set, whatever the overrides said |
| DepProperties.FilesOfIff | src/ipbb/depparser/DepFileParser.py:342-357 | `missingFiles[p][c][e]` holds `f` exactly when some missing entry is the expression `e` of `p`/`c` asked for by `f`; no level of the view is empty |
| DepProperties.ComponentsOfIff | src/ipbb/depparser/DepFileParser.py:361-371 | `missingComponents[p]` holds `c` exactly when some missing entry has that package and component and the component's directory does not exist; no set is empty |
| CmdTypes.NewInclude | src/ipbb/depparser/_cmdtypes.py:118-122 | an include record stores its arguments, and its dep file defaults to None |
| CmdTypes.Flags | src/ipbb/depparser/_cmdtypes.py:36-114 | `flags()` is None exactly for plain and include records. Otherwise it has at most one entry: `vhdl2008` for a VHDL-2008 source, `finalise` for a finalise setup, `toplevel` for a top-level address table, and the list is empty exactly when none of these applies |
| CmdTypes.Eq | src/ipbb/depparser/_cmdtypes.py:32-71 | a record other than a source compares paths; different paths are unequal. A source record raises `AttributeError` exactly against a non-source at the same path, and otherwise compares path and library |
| CmdTypes.Equals | src/ipbb/depparser/_cmdtypes.py:32-71 | `a == b` raises exactly when the paths agree and one side is a source record while the other is plain, or is the left-hand side of another class; otherwise the records are equal exactly when their paths agree and, when both are source records, their libraries agree |
| CmdTypes.EqualsSameClass | src/ipbb/depparser/_cmdtypes.py:32-71 | two records of one class are equal exactly when their path (and, for sources, library) agree |
| CmdTypes.EqualsReflexive | src/ipbb/depparser/_cmdtypes.py:32-71 | every record equals itself |
| CmdTypes.BaseAgainstSrcRaises | src/ipbb/depparser/_cmdtypes.py:70-71 | a plain record and a source record at the same path raise on comparison, in either order |
| DepGrammar.KindOf | src/ipbb/depparser/DepFileParser.py:139-181 | a token names a sub-command exactly when it is one of the six directive names |
| DepGrammar.SplitComponent | src/ipbb/depparser/DepFileParser.py:107-118 | `-c` fails exactly when its value holds more than one `:`. A value without `:` gives no package. Otherwise the value splits at the `:` into package and component, neither holding `:` |
| DepGrammar.SplitComponentQualified | src/ipbb/depparser/DepFileParser.py:114-118 | `-c pkg:cmp` reads back as that package and component |
| DepGrammar.TakePositional | src/ipbb/depparser/DepFileParser.py:145-181 | a positional token can only add itself to the files, and never empties them |
| DepGrammar.SetFlag | src/ipbb/depparser/DepFileParser.py:152-174 | a `store_true` option leaves the files alone |
| DepGrammar.SetValue | src/ipbb/depparser/DepFileParser.py:143-180 | an option with a value leaves the files alone, and fails only on a malformed component |
| DepGrammar.SubParse | src/ipbb/depparser/DepFileParser.py:139-181 | a sub-parser never accepts a `src` line without files, takes files only from its tokens, and never raises `DepCmdParserError` |
| DepGrammar.ParseFrom | src/ipbb/depparser/DepFileParser.py:128-187 | a parsed line is well formed (flags only on the directives that have them) and takes its files from the tokens; the parse yields no directive, without error, exactly when the line has no tokens at all (a line of option strings alone is an error) |
| DepGrammar.FilesRun | src/ipbb/depparser/DepFileParser.py:145-181 | a run of non-option tokens becomes the files |
| DepGrammar.OptionTable | src/ipbb/depparser/DepFileParser.py:141-181 | each sub-parser knows `-c` and `--cd`; `src` knows `-l`, `-n`, `--vhdl2008`; `setup` knows `-f`; `addrtab` knows `-t` |
| DepGrammar.ComponentReadsBack | src/ipbb/depparser/DepFileParser.py:107-118 | the `-c` text of a component reference reads back as that reference |
| DepGrammar.OptionsRead | src/ipbb/depparser/DepFileParser.py:139-181 | a sub-parser reads the options and files of a directive, as written out, back into the directive |
| DepGrammar.RoundTrip | src/ipbb/depparser/DepFileParser.py:128-187 | writing a directive out as a line and parsing the line gives the directive back |
| Text.TrimLeft | src/ipbb/depparser/DepFileParser.py:391 | `lstrip` gives a suffix that does not start with white space |
| Text.TrimRight | src/ipbb/depparser/DepFileParser.py:391 | `rstrip` gives a prefix that does not end with white space |
| Text.StripIdempotent | src/ipbb/depparser/DepFileParser.py:443 | stripping twice is stripping once |
| Text.SplitWsTokens | src/ipbb/depparser/DepFileParser.py:602 | `split()` never yields an empty token or one holding white space |
| Text.SplitJoinSpace | src/ipbb/depparser/DepFileParser.py:602 | splitting a space-joined list of non-empty, space-free tokens gives the tokens back |
| Text.SplitOn | src/ipbb/depparser/DepFileParser.py:403 | `split(c)` gives at least one piece, and no piece holds `c` |
| Text.SplitOnCount | src/ipbb/depparser/DepFileParser.py:403-404 | `split(c)` has one more piece than the string has `c` |
| Text.SplitOnJoin | src/ipbb/depparser/DepFileParser.py:403 | joining the pieces of `split(c)` with `c` rebuilds the string |
| Text.SplitJoinOn | src/ipbb/depparser/DepFileParser.py:114 | splitting a `c`-join of pieces without `c` gives the pieces back |
| Text.Positions | src/ipbb/depparser/DepFileParser.py:422-423 | the positions found hold `c` and ascend |
| Text.PositionsExact | src/ipbb/depparser/DepFileParser.py:422-424 | every occurrence of `c` is found, so there are as many as the string has `c` |
| Text.SplitExt | src/ipbb/depparser/DepFileParser.py:616 | `splitext` cuts the path into a root and an extension that make it up again |
| Text.SplitExtCut | src/ipbb/depparser/DepFileParser.py:616 | the extension is empty or a dot followed by no `/` and no further dot, and it is non-empty exactly when the last path component has a dot after some other character |
| Text.ExtOfBasename | src/ipbb/generators/vivadoproject.py:111-112 | the extension of a path's last component is the extension of the path |
| Template.Substitute | src/ipbb/depparser/DepFileParser.py:446-449 | substitution raises `ValueError` only on text holding `$`, and `KeyError` only for an identifier that is not bound |
| Template.NoPlaceholder | src/ipbb/depparser/DepFileParser.py:447 | text without `$` is copied unchanged |
| Template.Named | src/ipbb/depparser/DepFileParser.py:447 | `$name` is replaced by its value and the rest substituted after it |
| Template.Unbound | src/ipbb/depparser/DepFileParser.py:447 | `$name` with `name` unbound raises `KeyError(name)` |
| Template.Braced | src/ipbb/depparser/DepFileParser.py:447 | `${name}` is replaced by its value whatever follows |
| Template.Escape | src/ipbb/depparser/DepFileParser.py:447 | `$$` is an escaped `$` |
| Template.Dangling | src/ipbb/depparser/DepFileParser.py:447 | a `$` followed by neither `$`, `{` nor an identifier raises `ValueError` |
| Values.StrMap | src/ipbb/depparser/DepFileParser.py:447 | the substitution mapping has the variables' names, each bound to `str()` of its value |
| Vivado.FindTemplate | src/ipbb/generators/vivadoproject.py:165 | `setdefault(c, [])` finds the entry of template `c` if there is one, and otherwise points past the end, having checked that no entry has it |
| Vivado.VivadoProjectGenerator.constructor | src/ipbb/generators/vivadoproject.py:47-50 | the generator stores the project information, the IP cache path and the turbo flag |
| Vivado.VivadoProjectGenerator.Write | src/ipbb/generators/vivadoproject.py:53-198 | `write` sends exactly the lines of `Script` and ends as `Script` does |
| Vivado.VivadoProjectGenerator.WriteHeader | src/ipbb/generators/vivadoproject.py:68-94 | the lines before the sources are those of `Header` |
| Vivado.VivadoProjectGenerator.WriteBoard | src/ipbb/generators/vivadoproject.py:76-79 | the board lines are added after what was written |
| Vivado.VivadoProjectGenerator.WriteLines | src/ipbb/generators/vivadoproject.py:87-88 | one line per item is added, in order |
| Vivado.VivadoProjectGenerator.WriteSetups | src/ipbb/generators/vivadoproject.py:93-94 | a `source` line is added for each setup with the given `finalize` flag |
| Vivado.VivadoProjectGenerator.WriteSources | src/ipbb/generators/vivadoproject.py:103-169 | the loop over the sources leaves the lines, IP names and groups of `SrcLoop` |
| Vivado.VivadoProjectGenerator.WriteSource | src/ipbb/generators/vivadoproject.py:110-169 | one source leaves the lines, IP names and groups of `SrcStep` |
| Vivado.VivadoProjectGenerator.NoteIpName | src/ipbb/generators/vivadoproject.py:125 | an IP core's name is appended to the IP names |
| Vivado.VivadoProjectGenerator.PlaceCommands | src/ipbb/generators/vivadoproject.py:161-169 | the loop over a source's commands leaves the lines and groups of `Place` |
| Vivado.VivadoProjectGenerator.WriteGroups | src/ipbb/generators/vivadoproject.py:172-178 | the turbo-mode loop writes the lines of `EmitTypes` |
| Vivado.VivadoProjectGenerator.WriteTrailer | src/ipbb/generators/vivadoproject.py:180-198 | the lines after the sources are those of `Trailer` |
| Vivado.VivadoProjectGenerator.WriteTop | src/ipbb/generators/vivadoproject.py:180-185 | the top-level and IP-cache lines are added; the `sim_1` top only when the setting is present and true |
| Vivado.VivadoProjectGenerator.WriteIpRuns | src/ipbb/generators/vivadoproject.py:190-193 | the run commands of each IP are added |
| VivadoProperties.FileSetChoice | src/ipbb/generators/vivadoproject.py:26-42 | constraint files go to `constrs_1`; IP cores and synthesised design files to `sources_1`; design files only simulated to `sim_1`; anything else to no fileset; each case holds in both directions |
| VivadoProperties.FileSetRange | src/ipbb/generators/vivadoproject.py:26-42 | the fileset is one of the three names or None |
| VivadoProperties.IpImportsIntoSources | src/ipbb/generators/vivadoproject.py:117-125 | an IP core is imported into `sources_1`, its only command |
| VivadoProperties.AddCommands | src/ipbb/generators/vivadoproject.py:136-159 | any other source gives one `add_files`, then one property each for VHDL-2008, Tcl and a library, all on its own file |
| VivadoProperties.PropCommandsShape | src/ipbb/generators/vivadoproject.py:143-159 | the property commands are as many as the conditions met, and all are on the source's file |
| VivadoProperties.Fill | src/ipbb/generators/vivadoproject.py:169 | a clean template never fails, and puts the files where `$files` was |
| VivadoProperties.SrcCommandsClean | src/ipbb/generators/vivadoproject.py:117-159 | the templates of a source whose library holds no `$` are clean |
| VivadoProperties.AllCommandsClean | src/ipbb/generators/vivadoproject.py:103-159 | without a `$` in any library name, every command is clean |
| VivadoProperties.MapLinesIndex | src/ipbb/generators/vivadoproject.py:187-188 | one line per item, line `k` built from item `k` |
| VivadoProperties.IpRunLinesIndex | src/ipbb/generators/vivadoproject.py:190-193 | each IP gets its delete, generate and create commands, in that order, IP after IP |
| VivadoProperties.SetupLinesPartition | src/ipbb/generators/vivadoproject.py:93-196 | every setup script is sourced exactly once: in the header without `finalize`, in the trailer with it |
| VivadoProperties.FoldAppend | src/ipbb/generators/vivadoproject.py:161-165 | grouping two command lists one after the other is grouping their concatenation |
| VivadoProperties.Grouping | src/ipbb/generators/vivadoproject.py:161-165 | grouping the commands gives, per type, one entry per distinct template with exactly that template's files, in order |
| VivadoProperties.PlaceTurbo | src/ipbb/generators/vivadoproject.py:164-165 | in turbo mode the inner loop only groups |
| VivadoProperties.PlaceImmediate | src/ipbb/generators/vivadoproject.py:167-169 | otherwise it writes each clean command at once |
| VivadoProperties.SrcLoopTurbo | src/ipbb/generators/vivadoproject.py:103-165 | in turbo mode the source loop writes nothing, notes the IP names of all sources and groups all their commands |
| VivadoProperties.SrcLoopImmediate | src/ipbb/generators/vivadoproject.py:103-169 | otherwise it writes every command of every source in order and notes the IP names |
| VivadoProperties.EmitGroupsClean | src/ipbb/generators/vivadoproject.py:177-178 | clean entries are written one line each, with their files joined by spaces |
| VivadoProperties.EmitTypesClean | src/ipbb/generators/vivadoproject.py:172-178 | the turbo-mode lines are the IP imports, then the file additions, then the properties |
| VivadoProperties.PlaceProgress | src/ipbb/generators/vivadoproject.py:161-169 | the inner loop only adds lines, and fails only on a template |
| VivadoProperties.SrcLoopProgress | src/ipbb/generators/vivadoproject.py:103-169 | the source loop only adds lines, and fails only on a template |
| VivadoProperties.EmitTypesProgress | src/ipbb/generators/vivadoproject.py:172-178 | the turbo-mode loop only adds lines, and fails only on a template |
| VivadoProperties.SimTopFalsy | src/ipbb/generators/vivadoproject.py:181-182 | a simulation top setting that is false, zero or empty writes the same top-level lines as no setting |
| VivadoProperties.SimTopTruthy | src/ipbb/generators/vivadoproject.py:180-182 | a true simulation top setting adds exactly one line, right after the design top, setting `str()` of the value as the top of `sim_1` |
| VivadoProperties.ScriptMissing | src/ipbb/generators/vivadoproject.py:55-56 | a missing device setting is reported, naming the missing ones, before anything is written |
| VivadoProperties.ScriptImmediate | src/ipbb/generators/vivadoproject.py:53-198 | without turbo mode the script is the header, every command of every source in order, then the trailer |
| VivadoProperties.ScriptTurbo | src/ipbb/generators/vivadoproject.py:53-198 | in turbo mode the script is the header, one line per group of the well-formed grouping, then the trailer |
| VivadoProperties.ScriptKeepsHeader | src/ipbb/generators/vivadoproject.py:68-198 | once the settings are complete the header is written and stays, and any failure is a template one |
| VivadoProperties.ScriptErrors | src/ipbb/generators/vivadoproject.py:53-198 | `write` fails only on a missing device setting or a `$` in a library name, and reports missing settings exactly when some are missing |

## Left out

- **argparse beyond the grammar.** The rest of argparse is not modelled: usage and help texts, the exit of `-h`, prefix matching of long options, `--opt=value` spellings, and the message texts. `OHelp` models only the fact that `-h` ends parsing. Options are matched exactly, so three spellings that argparse accepts are rejected as unrecognized arguments, and the line is logged as a parse error: a short option with its value attached (`-lmylib`, `-cpkg:cmp`), several short flags run together, and the `--` separator that ends the options.
- **`exec` and `eval`.** Both are the `eval` parameter of `DepModel.Env`, which returns None when Python would raise. An `@` line is accepted as an assignment only when its left-hand side is a plain, non-reserved identifier (`AssignTarget`). Python's `exec` would also run other statements. This is what makes "a variable already set never changes" hold in the model (`DepModel.PreProcess`, `DepModel.Assign`): a line such as `@x+=1` or `@a,b=1,2` is rejected here, whereas in Python its text before `=` (`x+`, `a,b`) is not itself a variable name, so it passes the `already defined` test, and `exec` then rebinds variables that are already set.
- **The path maker and the filesystem.** `Pathmaker.getPath`, `getDefName`, `glob`, `os.path.exists` and reading a file's lines are parameters of `DepModel.Env`. Their own code is not part of this model.
- **Include nesting.** How deeply includes may nest is bounded by a `fuel` parameter that stands for Python's recursion limit. Running out gives `TooDeep`. An include cycle is not otherwise detected, as in the source.
- **Host inputs.** `time.strftime`, `abspath` and `kTopEntity` are fields of `Vivado.Host`.
- **Output.** The output callback of `write` is the sequence of lines written.
- **The group-mismatch `RuntimeError`** at vivadoproject.py:174-175 cannot be raised in the model, because command types are a datatype with only `ip`, `add` and `prop`.
- **Missing settings.** The `RuntimeError` for missing settings carries the set of missing names. The order in which Python joins them is not modelled.
- **Ordering in the `missing*` views.** They are modelled as maps and sets; the insertion order of their `OrderedDict`s is not kept.
- **Output without model value.** Verbosity prints, the warning printed for a variable that is already defined, and `__str__`/`__repr__` are not modelled.
- **Classes of `DepFileParser.py` outside the parser:** `DepFile`'s own methods, `MissingFile`, and the unused expression and command-file helpers. Only the record a `DepFile` keeps (`DepModel.Frame`) is modelled.
- **Text.** Strings are sequences of characters. White space is exactly Python's `str.isspace`. An `@` assignment target must be an ASCII identifier, the identifier syntax of `string.Template`. Python's `exec` would also accept non-ASCII identifiers.
- **Generator input names.** The generator reads `filepath`, `useInSynth`, `useInSim`, `vhdl2008`, `lib` and `finalize` from its commands. These are modelled as the fields of `Vivado.SrcItem` and `Vivado.SetupItem`. The command class that carries them is not part of this model.
