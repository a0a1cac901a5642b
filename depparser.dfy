/** `DepFileParser` as an object: the fields `parse` updates in place, and
    methods that update them step by step as the Python code does. Each
    method is proved to leave the object in the state the corresponding
    function of `DepModel` computes, so everything proved about those
    functions holds for the object. */
module DepParser {
  import opened Wrappers
  import Text
  import opened Values
  import Template
  import opened DepGrammar
  import opened DepModel

  /** A `key=value` override that does not unpack into two strings
      (`ValueError` in the constructor). */
  datatype OverrideFault = BadOverride(text: string)

  /** The `toolset` variable for a toolset name. */
  function ToolsetVar(toolset: string): (r: string)
    ensures r in {"ISE", "Vivado", "Modelsim", "other"}
  {
    if toolset == "xtclsh" then "ISE"
    else if toolset == "vivado" then "Vivado"
    else if toolset == "sim" then "Modelsim"
    else "other"
  }

  /** The overrides applied in order, later ones replacing earlier ones. */
  function Overrides(overrides: seq<string>, i: nat, vars: Vars): (r: Result<Vars, OverrideFault>)
    requires i <= |overrides|
    decreases |overrides| - i
  {
    if i == |overrides| then Ok(vars)
    else
      var parts := Text.SplitOn(overrides[i], '=');
      if |parts| != 2 then Err(BadOverride(overrides[i]))
      else Overrides(overrides, i + 1, vars[parts[0] := VStr(parts[1])])
  }

  /** The variables of a new parser, or the override that stops the
      constructor. */
  function InitialVars(toolset: string, overrides: seq<string>): Result<Vars, OverrideFault> {
    match Overrides(overrides, 0, map[])
    case Err(e) => Err(e)
    case Ok(vars) => Ok(vars["toolset" := VStr(ToolsetVar(toolset))])
  }

  function InitialSession(vars: Vars): Session {
    Session(0, None, vars, EmptyTable, [], map[], [], [], map[])
  }

  class DepFileParser {
    const env: Env
    const toolset: string
    var depth: nat
    var includes: Option<Frame>
    var vars: Vars
    var commands: CommandTable
    var libs: seq<string>
    var components: map<string, seq<string>>
    var missing: seq<Missing>
    var errors: seq<ErrorRecord>
    var revDep: map<string, seq<string>>

    function State(): Session
      reads this
    {
      Session(depth, includes, vars, commands, libs, components, missing, errors, revDep)
    }

    constructor Init(env: Env, toolset: string, vars: Vars)
      ensures this.env == env && this.toolset == toolset
      ensures State() == InitialSession(vars)
    {
      this.env := env;
      this.toolset := toolset;
      depth := 0;
      includes := None;
      this.vars := vars;
      commands := EmptyTable;
      libs := [];
      components := map[];
      missing := [];
      errors := [];
      revDep := map[];
    }

    /** `DepFileParser(toolset, pathmaker, overrides)`: the overrides are
        applied in order, then the toolset variable is set. */
    static method Create(env: Env, toolset: string, overrides: seq<string>) returns (r: Result<DepFileParser, OverrideFault>)
      ensures InitialVars(toolset, overrides).Err? ==> r == Err(InitialVars(toolset, overrides).error)
      ensures InitialVars(toolset, overrides).Ok? ==>
                && r.Ok? && fresh(r.value) && r.value.env == env
                && r.value.State() == InitialSession(InitialVars(toolset, overrides).value)
    {
      var vs: Vars := map[];
      var i := 0;
      while i < |overrides|
        invariant 0 <= i <= |overrides|
        invariant Overrides(overrides, 0, map[]) == Overrides(overrides, i, vs)
      {
        var parts := Text.SplitOn(overrides[i], '=');
        if |parts| != 2 {
          return Err(BadOverride(overrides[i]));
        }
        vs := vs[parts[0] := VStr(parts[1])];
        i := i + 1;
      }
      vs := vs["toolset" := VStr(ToolsetVar(toolset))];
      var p := new DepFileParser.Init(env, toolset, vs);
      return Ok(p);
    }

    /** `pre_process(line)`: only the variables may change. */
    method PreProcess(raw: string) returns (r: Result<Option<string>, PreFault>)
      modifies this
      ensures (vars, r) == DepModel.PreProcess(env, old(vars), raw)
      ensures State() == old(State()).(vars := vars)
    {
      var line := Text.Strip(raw);
      if line == "" || line[0] == '#' {
        return Ok(None);
      }
      if line[0] == '@' {
        r := AssignVar(line[1..]);
        return;
      }
      // a conditional prefix and the substitution only read the variables
      r := Expand(env, vars, line);
    }

    /** The `@name = expr` branch of `pre_process`. */
    method AssignVar(body: string) returns (r: Result<Option<string>, PreFault>)
      modifies this
      ensures (vars, r) == Assign(env, old(vars), body)
      ensures State() == old(State()).(vars := vars)
    {
      var parts := Text.SplitOn(body, '=');
      if |parts| != 2 {
        return Err(LineFault(NotKeyValue));
      }
      if Text.Strip(parts[0]) in vars {
        return Ok(None);
      }
      if !AssignTarget(parts[0]) {
        return Err(LineFault(DirectiveFailed));
      }
      var v := env.eval(parts[1], vars);
      if v.None? {
        return Err(LineFault(DirectiveFailed));
      }
      vars := vars[Text.TrimRight(parts[0]) := v.value];
      return Ok(None);
    }

    /** `parse(pkg, cmp, name)`. `fuel` is how many more levels of include
        the interpreter's recursion limit allows. */
    method Parse(pkg: string, cmp: string, name: string, fuel: nat) returns (r: Result<(), Fault>)
      modifies this
      ensures (State(), r) == ParseFile(env, old(State()), pkg, cmp, name, fuel)
      decreases fuel, 0, 2
    {
      if fuel == 0 {
        return Err(TooDeep);
      }
      var parent := if depth != 0 then includes else None;
      includes := Some(Frame(pkg, cmp, name, []));
      depth := depth + 1;
      var path := env.depPath(pkg, cmp, name);
      if !env.fileExists(path) {
        missing := missing + [Missing(path, Include, pkg, cmp, path)];
        return Err(DepFileMissing(path));
      }
      r := ReadAndProcess(parent, pkg, cmp, name, path, fuel);
    }

    /** The two loops of `parse` and its return one level up. */
    method ReadAndProcess(parent: Option<Frame>, pkg: string, cmp: string, name: string, path: string, fuel: nat)
      returns (r: Result<(), Fault>)
      requires fuel > 0 && includes.Some? && depth > 0
      modifies this
      ensures (State(), r) == ParseLines(env, old(State()), parent, pkg, cmp, name, path, fuel)
      decreases fuel, 0, 1
    {
      var parsed := ReadAll(pkg, cmp, path, env.lines(path));
      if parsed.Err? {
        return Err(parsed.error);
      }
      r := ProcessAll(parent, pkg, cmp, name, path, parsed.value, fuel);
    }

    /** The second loop of `parse` and its return one level up. */
    method ProcessAll(parent: Option<Frame>, pkg: string, cmp: string, name: string, path: string,
                      parsed: seq<Option<Directive>>, fuel: nat)
      returns (r: Result<(), Fault>)
      requires fuel > 0 && includes.Some? && depth > 0
      modifies this
      ensures (State(), r) == Process(env, old(State()), parent, pkg, cmp, name, path, parsed, fuel)
      decreases fuel, 0, 0
    {
      var rev := IsDepFile(name);
      var ps := if rev then Reverse(parsed) else parsed;
      ProcessUnfold(env, State(), parent, pkg, cmp, name, path, parsed, fuel);
      r := PostProcessAll(ps, path, pkg, cmp, rev, fuel - 1);
      if r.Err? {
        return;
      }
      LeaveFile(parent);
      r := Ok(());
    }

    /** The second loop of `parse`. */
    method PostProcessAll(ps: seq<Option<Directive>>, path: string, pkg: string, cmp: string, rev: bool, fuel: nat)
      returns (r: Result<(), Fault>)
      requires includes.Some?
      modifies this
      ensures (State(), r) == PostAll(env, old(State()), ps, path, pkg, cmp, rev, 0, fuel)
      decreases fuel, 4, 0
    {
      var i := 0;
      while i < |ps|
        invariant i <= |ps| && includes.Some?
        invariant PostAll(env, old(State()), ps, path, pkg, cmp, rev, 0, fuel)
               == PostAll(env, State(), ps, path, pkg, cmp, rev, i, fuel)
      {
        r := PostProcess(ps[i], path, pkg, cmp, rev, fuel);
        if r.Err? {
          return;
        }
        i := i + 1;
      }
      return Ok(());
    }

    /** The end of `parse`: one level up, and the deduplication when the
        outermost file is done. */
    method LeaveFile(parent: Option<Frame>)
      requires includes.Some? && depth > 0
      modifies this
      ensures State() == Leave(old(State()), parent)
    {
      depth := depth - 1;
      if parent.Some? {
        includes := Some(AppendEntry(parent.value, Sub(includes.value)));
      }
      if depth == 0 {
        Uniquify();
      }
    }

    /** The first loop of `parse`: pre-process and parse every line. */
    method ReadAll(pkg: string, cmp: string, path: string, lines: seq<string>)
      returns (r: Result<seq<Option<Directive>>, Fault>)
      modifies this
      ensures (State(), r) == ReadLines(env, old(State()), pkg, cmp, path, lines, 0, [])
    {
      var acc: seq<Option<Directive>> := [];
      var i := 0;
      while i < |lines|
        invariant i <= |lines|
        invariant ReadLines(env, old(State()), pkg, cmp, path, lines, 0, [])
               == ReadLines(env, State(), pkg, cmp, path, lines, i, acc)
      {
        ghost var s := State();
        var o := ReadOne(lines[i]);
        assert State() == s.(vars := vars);
        ReadLinesStep(env, s, pkg, cmp, path, lines, i, acc, vars, o);
        if o.Recorded? {
          errors := errors + [ErrorRecord(pkg, cmp, i, o.cause)];
          return Err(ParsingFailed(path, i));
        } else if o.Raised? {
          return Err(o.fault);
        } else if o.Parsed? {
          acc := acc + [o.parsed];
        }
        i := i + 1;
      }
      return Ok(acc);
    }

    /** The body of the first loop of `parse` for one line, up to the
        point where its outcome is known. */
    method ReadOne(raw: string) returns (o: LineOutcome)
      modifies this
      ensures (vars, o) == ReadLine(env, old(vars), raw)
      ensures State() == old(State()).(vars := vars)
    {
      var text := PreProcess(raw);
      match text
      case Err(LineFault(f)) =>
        return Recorded(DepLine(f));
      case Err(SubstFault(e)) =>
        return Raised(TemplateFailed(e));
      case Ok(None) =>
        return Skip;
      case Ok(Some(line)) =>
        if line == "" {
          return Skip;
        }
        match ParseTokens(Text.SplitWs(line))
        case Err(f) =>
          if IsDepCmdParserError(f) {
            return Recorded(DepCmd(f));
          }
          return Raised(ArgumentsRejected(f));
        case Ok(d) =>
          return Parsed(d);
    }

    /** `post_process(line, path, pkg, cmp, rev)`; only `parse` calls it,
        when a file is current. */
    method PostProcess(p: Option<Directive>, path: string, pkg: string, cmp: string, rev: bool, fuel: nat)
      returns (r: Result<(), Fault>)
      requires includes.Some?
      modifies this
      ensures (State(), r) == DepModel.PostProcess(env, old(State()), p, path, pkg, cmp, rev, fuel)
      decreases fuel, 3, 2
    {
      if p.None? {
        return Err(NoCommand);
      }
      r := PostLine(p.value, path, pkg, cmp, rev, fuel);
    }

    /** `post_process` on a parsed line. */
    method PostLine(d: Directive, path: string, pkg: string, cmp: string, rev: bool, fuel: nat)
      returns (r: Result<(), Fault>)
      requires includes.Some?
      modifies this
      ensures (State(), r) == DepModel.PostLine(env, old(State()), d, path, pkg, cmp, rev, fuel)
      decreases fuel, 3, 1
    {
      var lpkg := if d.component.package.Some? then d.component.package.value else pkg;
      var lcmp := if d.component.component.Some? then d.component.component.value else cmp;
      var lists := ExpandExprs(d, lpkg, lcmp, path, rev, Exprs(env, d, lcmp, rev));
      r := Dispatch(d, lpkg, lcmp, path, lists, fuel);
    }

    /** The end of `post_process`: include the files or add the commands. */
    method Dispatch(d: Directive, pkg: string, cmp: string, path: string, lists: seq<seq<(string, string)>>,
                    fuel: nat)
      returns (r: Result<(), Fault>)
      requires includes.Some?
      modifies this
      ensures (State(), r) == DepModel.Dispatch(env, old(State()), d, pkg, cmp, path, lists, fuel)
      decreases fuel, 3, 0
    {
      if d.kind == Include {
        r := IncludeAll(pkg, cmp, lists, fuel);
      } else {
        AddAll(d, pkg, cmp, path, lists);
        r := Ok(());
      }
    }

    /** The expansion loop of `post_process`. */
    method ExpandExprs(d: Directive, pkg: string, cmp: string, path: string, rev: bool, exprs: seq<string>)
      returns (lists: seq<seq<(string, string)>>)
      requires includes.Some?
      modifies this
      ensures (State(), lists) == ExpandAll(env, old(State()), d, pkg, cmp, path, rev, exprs, 0, [])
    {
      lists := [];
      var i := 0;
      while i < |exprs|
        invariant i <= |exprs| && includes.Some?
        invariant ExpandAll(env, old(State()), d, pkg, cmp, path, rev, exprs, 0, [])
               == ExpandAll(env, State(), d, pkg, cmp, path, rev, exprs, i, lists)
      {
        var (pe, fl) := Expansion(env, d, pkg, cmp, rev, exprs[i]);
        if fl != [] {
          lists := lists + [fl];
          components := AppendAt(components, pkg, cmp);
        } else {
          var m := Missing(pe, d.kind, pkg, cmp, path);
          missing := missing + [m];
          includes := Some(AppendEntry(includes.value, Miss(m)));
        }
        i := i + 1;
      }
    }

    /** The include branch of `post_process`. */
    method IncludeAll(pkg: string, cmp: string, lists: seq<seq<(string, string)>>, fuel: nat)
      returns (r: Result<(), Fault>)
      requires includes.Some?
      modifies this
      ensures (State(), r) == IncludeLists(env, old(State()), pkg, cmp, lists, 0, fuel)
      decreases fuel, 2, 0
    {
      var i := 0;
      while i < |lists|
        invariant i <= |lists| && includes.Some?
        invariant IncludeLists(env, old(State()), pkg, cmp, lists, 0, fuel)
               == IncludeLists(env, State(), pkg, cmp, lists, i, fuel)
      {
        var j := 0;
        while j < |lists[i]|
          invariant j <= |lists[i]| && includes.Some?
          invariant IncludeLists(env, old(State()), pkg, cmp, lists, 0, fuel)
                 == Then(IncludeFiles(env, State(), pkg, cmp, lists[i], j, fuel), pkg, cmp, lists, i + 1, fuel)
        {
          r := Parse(pkg, cmp, lists[i][j].0, fuel);
          if r.Err? {
            return;
          }
          j := j + 1;
        }
        i := i + 1;
      }
      return Ok(());
    }

    /** The rest of the include loop once the files of one list are done. */
    ghost function Then(step: (Session, Result<(), Fault>), pkg: string, cmp: string,
                        lists: seq<seq<(string, string)>>, i: nat, fuel: nat)
      : (Session, Result<(), Fault>)
      requires i <= |lists|
    {
      if step.1.Err? || step.0.includes.None? then step
      else IncludeLists(env, step.0, pkg, cmp, lists, i, fuel)
    }

    /** The non-include branch of `post_process`. */
    method AddAll(d: Directive, pkg: string, cmp: string, path: string, lists: seq<seq<(string, string)>>)
      requires d.kind != Include && includes.Some?
      modifies this
      ensures State() == AddCommands(old(State()), d, pkg, cmp, path, lists)
    {
      var lib := LibOf(d);
      if lib.Some? {
        libs := libs + [lib.value];
      }
      var proto := Prototype(d, pkg, cmp);
      ghost var s1 := State();
      var i := 0;
      while i < |lists|
        invariant i <= |lists| && includes.Some?
        invariant AddLists(s1, d.kind, proto, path, lists, 0) == AddLists(State(), d.kind, proto, path, lists, i)
      {
        AddFilesOf(d.kind, proto, path, lists[i]);
        i := i + 1;
      }
    }

    /** The inner loop of the non-include branch: one command per file. */
    method AddFilesOf(k: Kind, proto: Command, path: string, files: seq<(string, string)>)
      requires k != Include && includes.Some?
      modifies this
      ensures State() == AddFiles(old(State()), k, proto, path, files, 0)
    {
      ghost var s0 := State();
      var j := 0;
      while j < |files|
        invariant j <= |files| && includes.Some?
        invariant AddFiles(s0, k, proto, path, files, 0) == AddFiles(State(), k, proto, path, files, j)
      {
        ghost var s := State();
        AddCommand(k, proto.(filePath := files[j].1), path);
        assert AddFiles(s, k, proto, path, files, j) == AddFiles(State(), k, proto, path, files, j + 1);
        j := j + 1;
      }
    }

    /** One command of the non-include branch. */
    method AddCommand(k: Kind, c: Command, path: string)
      requires k != Include && includes.Some?
      modifies this
      ensures State() == AddOne(old(State()), k, c, path)
    {
      commands := commands.With(k, commands.Get(k) + [c]);
      includes := Some(AppendEntry(includes.value, Cmd(c)));
      revDep := AppendAt(revDep, c.filePath, path);
    }

    /** The deduplication `parse` does when it leaves the outermost file. */
    method Uniquify()
      modifies this
      ensures State() == DepModel.Uniquify(old(State()))
    {
      DedupAll();
      UniqueComponents();
    }

    /** The command lists without repeats. */
    method DedupAll()
      modifies this
      ensures State() == old(State()).(commands := DedupTable(old(commands)))
    {
      var setup := DedupCommands(commands.setup);
      var util := DedupCommands(commands.util);
      var src := DedupCommands(commands.src);
      var addrtab := DedupCommands(commands.addrtab);
      var iprepo := DedupCommands(commands.iprepo);
      commands := CommandTable(setup, util, src, addrtab, iprepo);
    }

    /** Each package's components without repeats, package by package. */
    method UniqueComponents()
      modifies this
      ensures State() == old(State()).(components := map q | q in old(components) :: Unique(old(components)[q]))
    {
      var todo := components.Keys;
      while todo != {}
        invariant todo <= old(components).Keys && components.Keys == old(components).Keys
        invariant forall q :: q in todo ==> components[q] == old(components)[q]
        invariant forall q :: q in components && q !in todo ==> components[q] == Unique(old(components)[q])
        invariant State() == old(State()).(components := components)
        decreases todo
      {
        var q :| q in todo;
        var u := UniqueNames(components[q]);
        components := components[q := u];
        todo := todo - {q};
      }
      assert components == map q | q in old(components) :: Unique(old(components)[q]);
    }

    /** One command list without repeats, kept in first-occurrence order. */
    static method DedupCommands(cs: seq<Command>) returns (r: seq<Command>)
      ensures r == Dedup(cs)
    {
      r := [];
      for i := 0 to |cs|
        invariant r == Dedup(cs[..i])
      {
        assert cs[..i + 1][..i] == cs[..i];
        if !HasSame(r, cs[i]) {
          r := r + [cs[i]];
        }
      }
      assert cs[..|cs|] == cs;
    }

    /** One package's components without repeats, the `lAdded` set
        remembering what was kept. */
    static method UniqueNames(xs: seq<string>) returns (r: seq<string>)
      ensures r == Unique(xs)
    {
      r := [];
      var added: set<string> := {};
      for i := 0 to |xs|
        invariant r == Unique(xs[..i])
        invariant added == set x | x in r
      {
        assert xs[..i + 1][..i] == xs[..i];
        if xs[i] !in added {
          r := r + [xs[i]];
          added := added + {xs[i]};
        }
      }
      assert xs[..|xs|] == xs;
    }

    /** `missingPaths`. */
    method MissingPaths() returns (r: set<string>)
      ensures r == PathsOf(missing)
    {
      r := {};
      for i := 0 to |missing|
        invariant r == PathsOf(missing[..i])
      {
        assert missing[..i + 1] == missing[..i] + [missing[i]];
        r := r + {missing[i].pathExpr};
      }
      assert missing[..|missing|] == missing;
    }

    /** `missingFiles`. */
    method MissingFiles() returns (r: map<string, map<string, map<string, set<string>>>>)
      ensures r == FilesOf(missing)
    {
      r := map[];
      for i := 0 to |missing|
        invariant r == FilesOf(missing[..i])
      {
        assert missing[..i + 1][..i] == missing[..i];
        var m := missing[i];
        var pm := if m.package in r then r[m.package] else map[];
        var cm := if m.component in pm then pm[m.component] else map[];
        var fs := if m.pathExpr in cm then cm[m.pathExpr] else {};
        r := r[m.package := pm[m.component := cm[m.pathExpr := fs + {m.depFile}]]];
      }
      assert missing[..|missing|] == missing;
    }

    /** `missingComponents`. */
    method MissingComponents() returns (r: map<string, set<string>>)
      ensures r == ComponentsOf(env, missing)
    {
      r := map[];
      for i := 0 to |missing|
        invariant r == ComponentsOf(env, missing[..i])
      {
        assert missing[..i + 1][..i] == missing[..i];
        var m := missing[i];
        if !env.fileExists(env.componentPath(m.package, m.component)) {
          var cs := if m.package in r then r[m.package] else {};
          r := r[m.package := cs + {m.component}];
        }
      }
      assert missing[..|missing|] == missing;
    }

    /** `missingPackages`. */
    method MissingPackages() returns (r: set<string>)
      ensures r == PackagesOf(env, missing)
    {
      r := {};
      for i := 0 to |missing|
        invariant r == PackagesOf(env, missing[..i])
      {
        assert missing[..i + 1][..i] == missing[..i];
        if !env.fileExists(env.packagePath(missing[i].package)) {
          r := r + {missing[i].package};
        }
      }
      assert missing[..|missing|] == missing;
    }
  }

  /** `Process` is the loop over the parsed lines, then `Leave` if it
      succeeded. */
  lemma ProcessUnfold(env: Env, s: Session, parent: Option<Frame>, pkg: string, cmp: string, name: string,
                      path: string, parsed: seq<Option<Directive>>, fuel: nat)
    requires fuel > 0 && s.includes.Some? && s.depth > 0
    ensures var rev := IsDepFile(name);
      var post := PostAll(env, s, if rev then Reverse(parsed) else parsed, path, pkg, cmp, rev, 0, fuel - 1);
      Process(env, s, parent, pkg, cmp, name, path, parsed, fuel)
      == if post.1.Err? then post else (Leave(post.0, parent), Ok(()))
  {
  }

  // -----------------------------------------------------------------------
  // The missing-file views, as functions of the `missing` log

  function PathsOf(ms: seq<Missing>): (r: set<string>)
    ensures forall e :: e in r <==> exists m :: m in ms && m.pathExpr == e
  {
    set m | m in ms :: m.pathExpr
  }

  /** `setdefault(pkg, {}).setdefault(cmp, {}).setdefault(expr, set()).add(depFile)`,
      left to right. */
  function FilesOf(ms: seq<Missing>): map<string, map<string, map<string, set<string>>>> {
    if ms == [] then map[]
    else
      var r := FilesOf(ms[..|ms| - 1]);
      var m := ms[|ms| - 1];
      var pm := if m.package in r then r[m.package] else map[];
      var cm := if m.component in pm then pm[m.component] else map[];
      var fs := if m.pathExpr in cm then cm[m.pathExpr] else {};
      r[m.package := pm[m.component := cm[m.pathExpr := fs + {m.depFile}]]]
  }

  /** The components of missing entries whose directory does not exist,
      by package. */
  function ComponentsOf(env: Env, ms: seq<Missing>): map<string, set<string>> {
    if ms == [] then map[]
    else
      var r := ComponentsOf(env, ms[..|ms| - 1]);
      var m := ms[|ms| - 1];
      if env.fileExists(env.componentPath(m.package, m.component)) then r
      else r[m.package := (if m.package in r then r[m.package] else {}) + {m.component}]
  }

  /** The packages of missing entries whose directory does not exist. */
  function PackagesOf(env: Env, ms: seq<Missing>): (r: set<string>)
    ensures forall p :: p in r <==> exists m :: m in ms && m.package == p && !env.fileExists(env.packagePath(p))
  {
    set m | m in ms && !env.fileExists(env.packagePath(m.package)) :: m.package
  }
}
