/** The state of a `DepFileParser` and the specification of everything
    `parse` does to it, as functions on values: line pre-processing,
    post-processing of each parsed line, the recursive descent into
    included dep files, and the deduplication on leaving the outermost file.
    The filesystem and the path maker are parameters (`Env`). */
module DepModel {
  import opened Wrappers
  import Text
  import opened Values
  import Template
  import opened DepGrammar

  /** `DepFileParser.Command`: one resolved file of a directive. */
  datatype Command = Command(
    filePath: string,
    package: string,
    component: string,
    lib: Option<string>,
    included: bool,
    topLevel: bool,
    vhdl2008: bool,
    finalise: bool)

  /** `Command.flags()`: the set flags, in this order. */
  function Flags(c: Command): (r: seq<string>)
    ensures ("noinclude" in r <==> !c.included) && ("top" in r <==> c.topLevel)
    ensures ("vhdl2008" in r <==> c.vhdl2008) && ("finalise" in r <==> c.finalise)
    ensures |r| == (if c.included then 0 else 1) + (if c.topLevel then 1 else 0)
                   + (if c.vhdl2008 then 1 else 0) + (if c.finalise then 1 else 0)
  {
    (if !c.included then ["noinclude"] else [])
    + (if c.topLevel then ["top"] else [])
    + (if c.vhdl2008 then ["vhdl2008"] else [])
    + (if c.finalise then ["finalise"] else [])
  }

  /** `Command.__eq__`: the same file into the same library. */
  predicate SameCommand(a: Command, b: Command) {
    a.filePath == b.filePath && a.lib == b.lib
  }

  /** One entry of `missing`: the path expression that matched nothing, the
      directive, the package and component it was looked up in, and the dep
      file that asked for it. */
  datatype Missing = Missing(pathExpr: string, kind: Kind, package: string, component: string, depFile: string)

  /** The record of one dep file (`DepFile`): what its lines produced, in
      order, including the records of the files it included. */
  datatype Entry = Cmd(cmd: Command) | Miss(miss: Missing) | Sub(file: Frame)
  datatype Frame = Frame(package: string, component: string, depFile: string, entries: seq<Entry>)

  function AppendEntry(f: Frame, e: Entry): (r: Frame)
    ensures r.entries == f.entries + [e]
  {
    f.(entries := f.entries + [e])
  }

  /** `commands`: one list per directive other than `include`. */
  datatype CommandTable = CommandTable(
    setup: seq<Command>, util: seq<Command>, src: seq<Command>, addrtab: seq<Command>, iprepo: seq<Command>)
  {
    function Get(k: Kind): seq<Command>
      requires k != Include
    {
      match k
      case Setup => setup
      case Util => util
      case Src => src
      case Addrtab => addrtab
      case Iprepo => iprepo
    }

    function With(k: Kind, cs: seq<Command>): (r: CommandTable)
      requires k != Include
      ensures r.Get(k) == cs
      ensures forall k' :: k' != Include && k' != k ==> r.Get(k') == Get(k')
    {
      match k
      case Setup => this.(setup := cs)
      case Util => this.(util := cs)
      case Src => this.(src := cs)
      case Addrtab => this.(addrtab := cs)
      case Iprepo => this.(iprepo := cs)
    }
  }

  const EmptyTable := CommandTable([], [], [], [], [])

  /** Why a line is rejected before argparse sees it (`DepLineError`). */
  datatype DepLineFault =
    | NotKeyValue                 // an `@` line that is not one `key=value` pair
    | DirectiveFailed             // the `@` assignment or the `?` condition raised
    | QuestionMarks(count: nat)   // a `?` line without exactly two `?`
    | NotBoolean                  // a `?` condition that is not a bool

  datatype LineCause = DepLine(lineFault: DepLineFault) | DepCmd(argFault: ArgFault)

  /** One entry of `errors`: package, component, 0-based line number, cause. */
  datatype ErrorRecord = ErrorRecord(package: string, component: string, lineNr: nat, cause: LineCause)

  /** The exception `parse` ends with. `ParsingFailed` is the `RuntimeError`
      raised after an entry was added to `errors`; the others escape without
      one: a template `KeyError`/`ValueError`, an argparse `SystemExit` or
      `ComponentAction` error, the `AttributeError` of a line that names no
      directive, the `OSError` of a missing dep file, and the
      `RecursionError` of includes nested beyond the interpreter's limit. */
  datatype Fault =
    | ParsingFailed(depFile: string, lineNr: nat)
    | TemplateFailed(templateError: Template.TemplateError)
    | ArgumentsRejected(argFault: ArgFault)
    | NoCommand
    | DepFileMissing(path: string)
    | TooDeep

  /** The world outside the parser: the path maker (`getPath` for a dep
      file, a component and a package; `getDefName`; `glob`), the
      filesystem (`exists` and the lines of a file) and Python's `eval`,
      which yields None when it raises. */
  datatype Env = Env(
    depPath: (string, string, string) -> string,
    componentPath: (string, string) -> string,
    packagePath: string -> string,
    fileExists: string -> bool,
    lines: string -> seq<string>,
    defName: (Kind, string) -> string,
    glob: (string, string, Kind, string, Option<string>) -> (string, seq<(string, string)>),
    eval: (string, Vars) -> Option<Value>)

  /** The fields of a `DepFileParser` that `parse` reads and writes. */
  datatype Session = Session(
    depth: nat,
    includes: Option<Frame>,
    vars: Vars,
    commands: CommandTable,
    libs: seq<string>,
    components: map<string, seq<string>>,
    missing: seq<Missing>,
    errors: seq<ErrorRecord>,
    revDep: map<string, seq<string>>)

  function Reverse<T>(xs: seq<T>): (r: seq<T>)
    ensures |r| == |xs|
    ensures forall i :: 0 <= i < |xs| ==> r[i] == xs[|xs| - 1 - i]
  {
    if xs == [] then [] else [xs[|xs| - 1]] + Reverse(xs[..|xs| - 1])
  }

  function Lookup(m: map<string, seq<string>>, k: string): seq<string> {
    if k in m then m[k] else []
  }

  /** `d.setdefault(k, []).append(v)`. */
  function AppendAt(m: map<string, seq<string>>, k: string, v: string): (r: map<string, seq<string>>)
    ensures r.Keys == m.Keys + {k}
    ensures r[k] == Lookup(m, k) + [v]
    ensures forall k' :: k' in m && k' != k ==> r[k'] == m[k']
  {
    m[k := Lookup(m, k) + [v]]
  }

  // ---------------------------------------------------------------------
  // pre_process

  predicate IsKeyword(s: string) {
    s in {"False", "None", "True", "and", "as", "assert", "async", "await", "break", "class",
          "continue", "def", "del", "elif", "else", "except", "finally", "for", "from", "global",
          "if", "import", "in", "is", "lambda", "nonlocal", "not", "or", "pass", "raise", "return",
          "try", "while", "with", "yield", "__debug__"}
  }

  /** The left-hand side of `@name = expr` that `exec` accepts as a plain
      assignment: an identifier that is not reserved, at the very start (any
      indentation is an `IndentationError`), then only blanks. */
  predicate AssignTarget(lhs: string) {
    var name := Text.TrimRight(lhs);
    && Template.IsIdentifier(name) && !IsKeyword(name)
    && forall k :: |name| <= k < |lhs| ==> lhs[k] in {' ', '\t', '\U{c}'}
  }

  /** The `?cond?rest` prefix: the line unchanged when it has none; None when
      the condition is false; the stripped rest when it is true. */
  function Conditional(env: Env, vars: Vars, line: string): Result<Option<string>, DepLineFault>
    requires line != []
  {
    if line[0] != '?' then Ok(Some(line))
    else
      var qs := Text.Positions(line, '?');
      if |qs| != 2 then Err(QuestionMarks(|qs|))
      else
        match env.eval(line[qs[0] + 1..qs[1]], vars)
        case None => Err(DirectiveFailed)
        case Some(VBool(b)) => if b then Ok(Some(Text.Strip(line[qs[1] + 1..]))) else Ok(None)
        case Some(_) => Err(NotBoolean)
  }

  datatype PreFault = LineFault(lineFault: DepLineFault) | SubstFault(substError: Template.TemplateError)

  /** An `@` directive, given the text after the `@`: the first writer of a
      name wins; a later assignment to it is skipped without evaluating it. */
  function Assign(env: Env, vars: Vars, body: string): (r: (Vars, Result<Option<string>, PreFault>))
    ensures forall k :: k in vars ==> k in r.0 && r.0[k] == vars[k]
    ensures r.0 != vars ==> r.1 == Ok(None)
  {
    var parts := Text.SplitOn(body, '=');
    if |parts| != 2 then (vars, Err(LineFault(NotKeyValue)))
    else if Text.Strip(parts[0]) in vars then (vars, Ok(None))
    else if !AssignTarget(parts[0]) then (vars, Err(LineFault(DirectiveFailed)))
    else match env.eval(parts[1], vars)
      case None => (vars, Err(LineFault(DirectiveFailed)))
      case Some(v) =>
        assert Text.TrimRight(parts[0]) !in vars by {
          StripOfTarget(parts[0]);
        }
        (vars[Text.TrimRight(parts[0]) := v], Ok(None))
  }

  /** A valid target is its own name once stripped. */
  lemma StripOfTarget(lhs: string)
    requires AssignTarget(lhs)
    ensures Text.Strip(lhs) == Text.TrimRight(lhs)
  {
    var name := Text.TrimRight(lhs);
    assert Text.TrimLeft(lhs) == lhs by {
      assert !Text.IsSpace(lhs[0]) by {
        assert lhs[0] == name[0];
      }
    }
  }

  /** A line that is neither blank, a comment nor an assignment: the
      conditional prefix is resolved and the variables are substituted. */
  function Expand(env: Env, vars: Vars, line: string): Result<Option<string>, PreFault>
    requires line != []
  {
    match Conditional(env, vars, line)
    case Err(f) => Err(LineFault(f))
    case Ok(None) => Ok(None)
    case Ok(Some(text)) =>
      match Template.Substitute(text, StrMap(vars))
      case Err(e) => Err(SubstFault(e))
      case Ok(t) => Ok(Some(t))
  }

  /** `pre_process(line)`: the new variable table and the text to parse
      (None for a line that produces nothing). Only `@` lines write
      variables, and they never change one that is already set. */
  function PreProcess(env: Env, vars: Vars, raw: string): (r: (Vars, Result<Option<string>, PreFault>))
    ensures forall k :: k in vars ==> k in r.0 && r.0[k] == vars[k]
    ensures r.0 != vars ==> r.1 == Ok(None)
  {
    var line := Text.Strip(raw);
    if line == "" || line[0] == '#' then (vars, Ok(None))
    else if line[0] == '@' then Assign(env, vars, line[1..])
    else (vars, Expand(env, vars, line))
  }

  // ---------------------------------------------------------------------
  // parse: reading the lines of one file

  /** What one line of a dep file comes to before post-processing. */
  datatype LineOutcome =
    | Skip                                // blank, comment, assignment, false condition
    | Parsed(parsed: Option<Directive>)   // argparse's namespace (None: no directive named)
    | Recorded(cause: LineCause)          // logged in `errors`, then `RuntimeError`
    | Raised(fault: Fault)                // an exception that escapes unrecorded

  /** `pre_process` and then `parseLine(line.split())` on one line. */
  function ReadLine(env: Env, vars: Vars, raw: string): (r: (Vars, LineOutcome))
    ensures forall k :: k in vars ==> k in r.0 && r.0[k] == vars[k]
    ensures r.1.Raised? ==> r.1.fault.TemplateFailed? || r.1.fault.ArgumentsRejected?
  {
    var (vars', pr) := PreProcess(env, vars, raw);
    match pr
    case Err(LineFault(f)) => (vars', Recorded(DepLine(f)))
    case Err(SubstFault(e)) => (vars', Raised(TemplateFailed(e)))
    case Ok(None) => (vars', Skip)
    case Ok(Some(text)) =>
      if text == "" then (vars', Skip)
      else match ParseTokens(Text.SplitWs(text))
        case Err(f) =>
          if IsDepCmdParserError(f) then (vars', Recorded(DepCmd(f))) else (vars', Raised(ArgumentsRejected(f)))
        case Ok(p) => (vars', Parsed(p))
  }

  /** How a failed read leaves the error log: `ParsingFailed` for a line
      of this file with exactly one new record, for that line; any other
      fault with the log unchanged. */
  predicate ReadLogged(r: (Session, Result<seq<Option<Directive>>, Fault>), before: seq<ErrorRecord>,
                       pkg: string, cmp: string, path: string, i: nat, n: nat)
    requires r.1.Err?
  {
    if r.1.error.ParsingFailed? then
      && r.1.error.depFile == path && i <= r.1.error.lineNr < n
      && |r.0.errors| == |before| + 1
      && r.0.errors == before + [ErrorRecord(pkg, cmp, r.1.error.lineNr, r.0.errors[|before|].cause)]
    else r.0.errors == before
  }

  /** The first loop of `parse`: every line is pre-processed and parsed, in
      order, before any is post-processed. Only the variables and the error
      log change; a rejected line adds one record for its line number. */
  function ReadLines(env: Env, s: Session, pkg: string, cmp: string, path: string,
                     lines: seq<string>, i: nat, acc: seq<Option<Directive>>)
    : (r: (Session, Result<seq<Option<Directive>>, Fault>))
    requires i <= |lines|
    ensures r.0 == s.(vars := r.0.vars, errors := r.0.errors)
    ensures Grows(s, r.0)
    ensures r.1.Ok? ==> r.0.errors == s.errors && acc <= r.1.value
    ensures r.1.Err? ==> ReadLogged(r, s.errors, pkg, cmp, path, i, |lines|)
    decreases |lines| - i
  {
    if i == |lines| then (s, Ok(acc))
    else
      var (vars', o) := ReadLine(env, s.vars, lines[i]);
      var s1 := s.(vars := vars');
      match o
      case Skip => ReadLines(env, s1, pkg, cmp, path, lines, i + 1, acc)
      case Parsed(p) => ReadLines(env, s1, pkg, cmp, path, lines, i + 1, acc + [p])
      case Recorded(c) => (s1.(errors := s1.errors + [ErrorRecord(pkg, cmp, i, c)]), Err(ParsingFailed(path, i)))
      case Raised(f) => (s1, Err(f))
  }

  /** One line of the first loop of `parse`, by its outcome. */
  lemma ReadLinesStep(env: Env, s: Session, pkg: string, cmp: string, path: string, lines: seq<string>,
                      i: nat, acc: seq<Option<Directive>>, vars: Vars, o: LineOutcome)
    requires i < |lines| && ReadLine(env, s.vars, lines[i]) == (vars, o)
    ensures o.Skip? ==> (ReadLines(env, s, pkg, cmp, path, lines, i, acc)
                      == ReadLines(env, s.(vars := vars), pkg, cmp, path, lines, i + 1, acc))
    ensures o.Parsed? ==> (ReadLines(env, s, pkg, cmp, path, lines, i, acc)
                        == ReadLines(env, s.(vars := vars), pkg, cmp, path, lines, i + 1, acc + [o.parsed]))
    ensures o.Recorded? ==> (ReadLines(env, s, pkg, cmp, path, lines, i, acc)
                          == (s.(vars := vars, errors := s.errors + [ErrorRecord(pkg, cmp, i, o.cause)]), Err(ParsingFailed(path, i))))
    ensures o.Raised? ==> ReadLines(env, s, pkg, cmp, path, lines, i, acc) == (s.(vars := vars), Err(o.fault))
  {}

  // ---------------------------------------------------------------------
  // post_process

  /** The last `/`-separated segment of a component name. */
  function LastSegment(cmp: string): string {
    var parts := Text.SplitOn(cmp, '/');
    parts[|parts| - 1]
  }

  /** The file expressions of a directive: its files, or the default name
      for its directive and component when it lists none; reversed for a
      `.dep` file. */
  function Exprs(env: Env, d: Directive, cmp: string, rev: bool): seq<string> {
    var base := if d.files == [] then [env.defName(d.kind, LastSegment(cmp))] else d.files;
    if rev then Reverse(base) else base
  }

  /** `glob` on one expression: the path expression and the matches, whose
      order is reversed for a `.dep` file. */
  function Expansion(env: Env, d: Directive, pkg: string, cmp: string, rev: bool, e: string)
    : (string, seq<(string, string)>)
  {
    var (pe, fl) := env.glob(pkg, cmp, d.kind, e, d.cd);
    (pe, if rev then Reverse(fl) else fl)
  }

  /** The current file's record only gains entries. */
  predicate FrameExtends(a: Frame, b: Frame) {
    && b.package == a.package && b.component == a.component && b.depFile == a.depFile
    && a.entries <= b.entries
  }

  /** The expansion loop of `post_process`: a non-empty expansion registers
      the component under its package and is kept; an empty one is logged
      as missing, both in `missing` and in the current file's record. */
  function ExpandAll(env: Env, s: Session, d: Directive, pkg: string, cmp: string, path: string,
                     rev: bool, exprs: seq<string>, i: nat, lists: seq<seq<(string, string)>>)
    : (r: (Session, seq<seq<(string, string)>>))
    requires s.includes.Some? && i <= |exprs|
    ensures r.0 == s.(components := r.0.components, missing := r.0.missing, includes := r.0.includes)
    ensures r.0.includes.Some? && FrameExtends(s.includes.value, r.0.includes.value)
    ensures s.missing <= r.0.missing
    decreases |exprs| - i
  {
    if i == |exprs| then (s, lists)
    else
      var (pe, fl) := Expansion(env, d, pkg, cmp, rev, exprs[i]);
      if fl != [] then
        ExpandAll(env, s.(components := AppendAt(s.components, pkg, cmp)), d, pkg, cmp, path, rev, exprs, i + 1, lists + [fl])
      else
        var m := Missing(pe, d.kind, pkg, cmp, path);
        ExpandAll(env, s.(missing := s.missing + [m], includes := Some(AppendEntry(s.includes.value, Miss(m)))),
                  d, pkg, cmp, path, rev, exprs, i + 1, lists)
  }

  /** The library of a directive when it is given and not empty. */
  function LibOf(d: Directive): Option<string> {
    if d.lib.Some? && d.lib.value != "" then d.lib else None
  }

  /** The attributes every command of a (non-include) directive shares. */
  function Prototype(d: Directive, pkg: string, cmp: string): Command {
    Command("", pkg, cmp, LibOf(d), !d.noinclude, d.toplevel, d.kind == Src && d.vhdl2008, d.finalise)
  }

  /** One command per matched file: appended to its directive's list, to the
      current file's record, and the dep file recorded as a dependant of it. */
  function AddFiles(s: Session, k: Kind, proto: Command, path: string, files: seq<(string, string)>, j: nat)
    : (r: Session)
    requires k != Include && s.includes.Some? && j <= |files|
    ensures r == s.(commands := r.commands, includes := r.includes, revDep := r.revDep)
    ensures r.includes.Some? && FrameExtends(s.includes.value, r.includes.value)
    decreases |files| - j
  {
    if j == |files| then s
    else AddFiles(AddOne(s, k, proto.(filePath := files[j].1), path), k, proto, path, files, j + 1)
  }

  /** One command: appended to its list and to the current file's record,
      and its file mapped back to the dep file. */
  function AddOne(s: Session, k: Kind, c: Command, path: string): (r: Session)
    requires k != Include && s.includes.Some?
    ensures r == s.(commands := r.commands, includes := r.includes, revDep := r.revDep)
    ensures r.includes.Some? && FrameExtends(s.includes.value, r.includes.value)
  {
    s.(commands := s.commands.With(k, s.commands.Get(k) + [c]),
       includes := Some(AppendEntry(s.includes.value, Cmd(c))),
       revDep := AppendAt(s.revDep, c.filePath, path))
  }

  function AddLists(s: Session, k: Kind, proto: Command, path: string, lists: seq<seq<(string, string)>>, i: nat)
    : (r: Session)
    requires k != Include && s.includes.Some? && i <= |lists|
    ensures r == s.(commands := r.commands, includes := r.includes, revDep := r.revDep)
    ensures r.includes.Some? && FrameExtends(s.includes.value, r.includes.value)
    decreases |lists| - i
  {
    if i == |lists| then s
    else AddLists(AddFiles(s, k, proto, path, lists[i], 0), k, proto, path, lists, i + 1)
  }

  /** The non-include branch of `post_process`: the library is logged once
      per line, then every matched file becomes a command. */
  function AddCommands(s: Session, d: Directive, pkg: string, cmp: string, path: string,
                       lists: seq<seq<(string, string)>>)
    : (r: Session)
    requires d.kind != Include && s.includes.Some?
    ensures r == s.(commands := r.commands, includes := r.includes, revDep := r.revDep, libs := r.libs)
    ensures r.libs == s.libs + (if LibOf(d).Some? then [LibOf(d).value] else [])
    ensures r.includes.Some? && FrameExtends(s.includes.value, r.includes.value)
  {
    var s1 := if LibOf(d).Some? then s.(libs := s.libs + [LibOf(d).value]) else s;
    AddLists(s1, d.kind, Prototype(d, pkg, cmp), path, lists, 0)
  }

  // ---------------------------------------------------------------------
  // Deduplication on leaving the outermost file

  /** Some element of `cs` equals `c` in the sense of `Command.__eq__`. */
  predicate HasSame(cs: seq<Command>, c: Command) {
    exists x :: x in cs && SameCommand(x, c)
  }

  /** The deduplication loop: the first of each group of equal commands,
      in order. */
  function Dedup(cs: seq<Command>): seq<Command> {
    if cs == [] then []
    else
      var r := Dedup(cs[..|cs| - 1]);
      var c := cs[|cs| - 1];
      if HasSame(r, c) then r else r + [c]
  }

  /** The deduplicated list has no two equal commands, holds only commands of
      the input, and an equal of each of them. */
  lemma {:induction false} DedupSound(cs: seq<Command>)
    ensures Distinct(Dedup(cs))
    ensures forall x :: x in Dedup(cs) ==> x in cs
    ensures forall x :: x in cs ==> HasSame(Dedup(cs), x)
  {
    if cs != [] {
      var init := cs[..|cs| - 1];
      DedupSound(init);
      assert cs == init + [cs[|cs| - 1]];
      DedupStep(init, cs[|cs| - 1]);
    }
  }

  lemma DedupStep(init: seq<Command>, c: Command)
    requires Distinct(Dedup(init))
    requires forall x :: x in Dedup(init) ==> x in init
    requires forall x :: x in init ==> HasSame(Dedup(init), x)
    ensures Distinct(Dedup(init + [c]))
    ensures forall x :: x in Dedup(init + [c]) ==> x in init + [c]
    ensures forall x :: x in init + [c] ==> HasSame(Dedup(init + [c]), x)
  {
    var cs := init + [c];
    assert cs[..|cs| - 1] == init && cs[|cs| - 1] == c;
    var r := Dedup(init);
    if !HasSame(r, c) {
      DedupAppend(init, r, c);
    }
  }

  lemma DedupAppend(init: seq<Command>, r: seq<Command>, c: Command)
    requires Distinct(r) && !HasSame(r, c)
    requires forall x :: x in init ==> HasSame(r, x)
    ensures Distinct(r + [c])
    ensures forall x :: x in init + [c] ==> HasSame(r + [c], x)
  {
    forall x | x in init + [c]
      ensures HasSame(r + [c], x)
    {
      if x == c {
        assert c in r + [c] && SameCommand(c, x);
      } else {
        assert x in init;
        var y :| y in r && SameCommand(y, x);
        assert y in r + [c];
      }
    }
    forall i, j | 0 <= i < j < |r + [c]|
      ensures !SameCommand((r + [c])[i], (r + [c])[j])
    {
      if j == |r| {
        assert (r + [c])[i] in r;
      }
    }
  }

  /** The component deduplication loop: first occurrences, in order. */
  function Unique(xs: seq<string>): (r: seq<string>)
    ensures forall i, j :: 0 <= i < j < |r| ==> r[i] != r[j]
    ensures forall x :: x in r <==> x in xs
  {
    if xs == [] then []
    else
      var r := Unique(xs[..|xs| - 1]);
      var x := xs[|xs| - 1];
      assert xs == xs[..|xs| - 1] + [x];
      if x in r then r else r + [x]
  }

  function DedupTable(t: CommandTable): CommandTable {
    CommandTable(Dedup(t.setup), Dedup(t.util), Dedup(t.src), Dedup(t.addrtab), Dedup(t.iprepo))
  }

  function Uniquify(s: Session): Session {
    s.(commands := DedupTable(s.commands),
       components := map p | p in s.components :: Unique(s.components[p]))
  }

  // ---------------------------------------------------------------------
  // parse

  /** What the parser only ever adds to: the missing, error and library
      logs, and the variables (a set variable keeps its value). */
  predicate Grows(s: Session, t: Session) {
    && s.missing <= t.missing && s.errors <= t.errors && s.libs <= t.libs
    && forall k :: k in s.vars ==> k in t.vars && t.vars[k] == s.vars[k]
  }

  /** `after` is `before` with the record of the file `pkg`/`cmp`/`name`
      appended. */
  predicate ChildAppended(before: Frame, after: Frame, pkg: string, cmp: string, name: string) {
    && after.entries != []
    && after == AppendEntry(before, after.entries[|after.entries| - 1])
    && var e := after.entries[|after.entries| - 1];
       e.Sub? && e.file.package == pkg && e.file.component == cmp && e.file.depFile == name
  }

  /** Dep files named `*.dep` are processed in reverse. */
  predicate IsDepFile(name: string) {
    Text.SplitExt(name).1 == ".dep"
  }

  /** No two commands of a list are equal in the sense of `Command.__eq__`. */
  predicate Distinct(cs: seq<Command>) {
    forall i, j :: 0 <= i < j < |cs| ==> !SameCommand(cs[i], cs[j])
  }

  predicate DistinctTable(t: CommandTable) {
    Distinct(t.setup) && Distinct(t.util) && Distinct(t.src) && Distinct(t.addrtab) && Distinct(t.iprepo)
  }

  /** The end of `parse`: one level up, the file's record appended to the
      enclosing one (which becomes current again), and the lists
      deduplicated when the outermost file is done. */
  function Leave(s: Session, parent: Option<Frame>): (r: Session)
    requires s.includes.Some? && s.depth > 0
    ensures r.depth == s.depth - 1 && r.includes.Some?
    ensures parent.Some? ==> r.includes == Some(AppendEntry(parent.value, Sub(s.includes.value)))
    ensures r.depth == 0 ==> DistinctTable(r.commands)
    ensures r.missing == s.missing && r.errors == s.errors && r.libs == s.libs && r.vars == s.vars
  {
    var s1 := s.(depth := s.depth - 1);
    var s2 := if parent.Some? then s1.(includes := Some(AppendEntry(parent.value, Sub(s1.includes.value)))) else s1;
    if s2.depth == 0 then
      DedupSound(s2.commands.setup);
      DedupSound(s2.commands.util);
      DedupSound(s2.commands.src);
      DedupSound(s2.commands.addrtab);
      DedupSound(s2.commands.iprepo);
      Uniquify(s2)
    else s2
  }

  /** `parse(pkg, cmp, name)`, with `fuel` bounding how deeply includes may
      nest before Python's recursion limit is hit. */
  function ParseFile(env: Env, s: Session, pkg: string, cmp: string, name: string, fuel: nat)
    : (r: (Session, Result<(), Fault>))
    ensures Grows(s, r.0)
    ensures fuel > 0 || s.includes.Some? ==> r.0.includes.Some?
    ensures r.1.Ok? ==> r.0.depth == s.depth
    ensures r.1.Ok? && s.depth != 0 && s.includes.Some? ==>
              ChildAppended(s.includes.value, r.0.includes.value, pkg, cmp, name)
    ensures r.1.Ok? && s.depth == 0 ==> DistinctTable(r.0.commands)
    decreases fuel, 0, 2
  {
    if fuel == 0 then (s, Err(TooDeep))
    else
      var parent := if s.depth != 0 then s.includes else None;
      var s1 := s.(includes := Some(Frame(pkg, cmp, name, [])), depth := s.depth + 1);
      var path := env.depPath(pkg, cmp, name);
      if !env.fileExists(path) then
        (s1.(missing := s1.missing + [Missing(path, Include, pkg, cmp, path)]), Err(DepFileMissing(path)))
      else
        ParseLines(env, s1, parent, pkg, cmp, name, path, fuel)
  }

  /** `after` is `parent` with one more entry: the record of a file that
      extends `frame`. */
  predicate Closed(parent: Frame, after: Frame, frame: Frame) {
    && after.entries != []
    && after == AppendEntry(parent, after.entries[|after.entries| - 1])
    && after.entries[|after.entries| - 1].Sub?
    && FrameExtends(frame, after.entries[|after.entries| - 1].file)
  }

  /** `parse` once the file is current and known to exist: both loops, then
      one level up. */
  function ParseLines(env: Env, s: Session, parent: Option<Frame>, pkg: string, cmp: string, name: string,
                      path: string, fuel: nat)
    : (r: (Session, Result<(), Fault>))
    requires fuel > 0 && s.includes.Some? && s.depth > 0
    ensures Grows(s, r.0) && r.0.includes.Some?
    ensures r.1.Ok? ==> r.0.depth == s.depth - 1
    ensures r.1.Ok? && parent.Some? ==> Closed(parent.value, r.0.includes.value, s.includes.value)
    ensures r.1.Ok? && r.0.depth == 0 ==> DistinctTable(r.0.commands)
    decreases fuel, 0, 1
  {
    var read := ReadLines(env, s, pkg, cmp, path, env.lines(path), 0, []);
    if read.1.Err? then (read.0, Err(read.1.error))
    else Process(env, read.0, parent, pkg, cmp, name, path, read.1.value, fuel)
  }

  /** The second loop of `parse`, over the parsed lines (in reverse for a
      `.dep` file), then one level up. */
  function Process(env: Env, s: Session, parent: Option<Frame>, pkg: string, cmp: string, name: string,
                   path: string, parsed: seq<Option<Directive>>, fuel: nat)
    : (r: (Session, Result<(), Fault>))
    requires fuel > 0 && s.includes.Some? && s.depth > 0
    ensures Grows(s, r.0) && r.0.includes.Some?
    ensures r.1.Ok? ==> r.0.depth == s.depth - 1
    ensures r.1.Ok? && parent.Some? ==> Closed(parent.value, r.0.includes.value, s.includes.value)
    ensures r.1.Ok? && r.0.depth == 0 ==> DistinctTable(r.0.commands)
    decreases fuel, 0, 0
  {
    var rev := IsDepFile(name);
    var post := PostAll(env, s, if rev then Reverse(parsed) else parsed, path, pkg, cmp, rev, 0, fuel - 1);
    if post.1.Err? then post
    else (Leave(post.0, parent), Ok(()))
  }

  /** The second loop of `parse`: `post_process` on every parsed line. */
  function PostAll(env: Env, s: Session, ps: seq<Option<Directive>>, path: string, pkg: string, cmp: string,
                   rev: bool, i: nat, fuel: nat)
    : (r: (Session, Result<(), Fault>))
    requires s.includes.Some? && i <= |ps|
    ensures Grows(s, r.0) && r.0.includes.Some?
    ensures r.1.Ok? ==> r.0.depth == s.depth
    ensures r.1.Ok? && s.depth != 0 ==> FrameExtends(s.includes.value, r.0.includes.value)
    decreases fuel, 4, |ps| - i
  {
    if i == |ps| then (s, Ok(()))
    else
      var (s1, r1) := PostProcess(env, s, ps[i], path, pkg, cmp, rev, fuel);
      if r1.Err? then (s1, r1) else PostAll(env, s1, ps, path, pkg, cmp, rev, i + 1, fuel)
  }

  /** `post_process(line, path, pkg, cmp, rev)`. */
  function PostProcess(env: Env, s: Session, p: Option<Directive>, path: string, pkg: string, cmp: string,
                       rev: bool, fuel: nat)
    : (r: (Session, Result<(), Fault>))
    requires s.includes.Some?
    ensures Grows(s, r.0) && r.0.includes.Some?
    ensures r.1.Ok? ==> r.0.depth == s.depth
    ensures r.1.Ok? && s.depth != 0 ==> FrameExtends(s.includes.value, r.0.includes.value)
    decreases fuel, 3, 2
  {
    if p.None? then (s, Err(NoCommand))
    else PostLine(env, s, p.value, path, pkg, cmp, rev, fuel)
  }

  /** `post_process` on a parsed line: the `-c` option overrides the
      package and component, the expressions are expanded, then the line
      takes effect. */
  function PostLine(env: Env, s: Session, d: Directive, path: string, pkg: string, cmp: string,
                    rev: bool, fuel: nat)
    : (r: (Session, Result<(), Fault>))
    requires s.includes.Some?
    ensures Grows(s, r.0) && r.0.includes.Some?
    ensures r.1.Ok? ==> r.0.depth == s.depth
    ensures r.1.Ok? && s.depth != 0 ==> FrameExtends(s.includes.value, r.0.includes.value)
    decreases fuel, 3, 1
  {
    var lpkg := if d.component.package.Some? then d.component.package.value else pkg;
    var lcmp := if d.component.component.Some? then d.component.component.value else cmp;
    var ex := ExpandAll(env, s, d, lpkg, lcmp, path, rev, Exprs(env, d, lcmp, rev), 0, []);
    Dispatch(env, ex.0, d, lpkg, lcmp, path, ex.1, fuel)
  }

  /** The end of `post_process`, once the file lists are known: an include
      line parses them, any other line turns them into commands. */
  function Dispatch(env: Env, s: Session, d: Directive, pkg: string, cmp: string, path: string,
                    lists: seq<seq<(string, string)>>, fuel: nat)
    : (r: (Session, Result<(), Fault>))
    requires s.includes.Some?
    ensures Grows(s, r.0) && r.0.includes.Some?
    ensures r.1.Ok? ==> r.0.depth == s.depth
    ensures r.1.Ok? && s.depth != 0 ==> FrameExtends(s.includes.value, r.0.includes.value)
    decreases fuel, 3, 0
  {
    if d.kind == Include then IncludeLists(env, s, pkg, cmp, lists, 0, fuel)
    else (AddCommands(s, d, pkg, cmp, path, lists), Ok(()))
  }

  /** The include branch of `post_process`: every matched file, list by
      list, is parsed by name in the line's package and component. */
  function IncludeLists(env: Env, s: Session, pkg: string, cmp: string, lists: seq<seq<(string, string)>>,
                        i: nat, fuel: nat)
    : (r: (Session, Result<(), Fault>))
    requires s.includes.Some? && i <= |lists|
    ensures Grows(s, r.0) && r.0.includes.Some?
    ensures r.1.Ok? ==> r.0.depth == s.depth
    ensures r.1.Ok? && s.depth != 0 ==> FrameExtends(s.includes.value, r.0.includes.value)
    decreases fuel, 2, |lists| - i
  {
    if i == |lists| then (s, Ok(()))
    else
      var (s1, r1) := IncludeFiles(env, s, pkg, cmp, lists[i], 0, fuel);
      if r1.Err? then (s1, r1) else IncludeLists(env, s1, pkg, cmp, lists, i + 1, fuel)
  }

  function IncludeFiles(env: Env, s: Session, pkg: string, cmp: string, files: seq<(string, string)>,
                        j: nat, fuel: nat)
    : (r: (Session, Result<(), Fault>))
    requires s.includes.Some? && j <= |files|
    ensures Grows(s, r.0) && r.0.includes.Some?
    ensures r.1.Ok? ==> r.0.depth == s.depth
    ensures r.1.Ok? && s.depth != 0 ==> FrameExtends(s.includes.value, r.0.includes.value)
    decreases fuel, 1, |files| - j
  {
    if j == |files| then (s, Ok(()))
    else
      var (s1, r1) := ParseFile(env, s, pkg, cmp, files[j].0, fuel);
      if r1.Err? then (s1, r1) else IncludeFiles(env, s1, pkg, cmp, files, j + 1, fuel)
  }
}
