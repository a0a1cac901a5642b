/** Properties of the dependency-file parser beyond the contracts of its
    functions: the cases of line pre-processing, the file expressions of a
    directive, what the expansion and command loops add to the parser's
    state, the deduplication done on leaving the outermost file, the
    constructor's overrides and the views of the `missing` log. */
module DepProperties {
  import opened Wrappers
  import Text
  import opened Values
  import Template
  import opened DepGrammar
  import opened DepModel
  import opened DepParser

  // ---------------------------------------------------------------------
  // pre_process

  /** Blank lines and comments produce nothing and set nothing. */
  lemma BlankOrComment(env: Env, vars: Vars, raw: string)
    requires Text.Strip(raw) == "" || Text.Strip(raw)[0] == '#'
    ensures PreProcess(env, vars, raw) == (vars, Ok(None))
  {
  }

  /** An `@` line is rejected unless its text holds exactly one `=`. */
  lemma AssignNotKeyValue(env: Env, vars: Vars, raw: string)
    requires Text.Strip(raw) != "" && Text.Strip(raw)[0] == '@'
    requires multiset(Text.Strip(raw)[1..])['='] != 1
    ensures PreProcess(env, vars, raw) == (vars, Err(LineFault(NotKeyValue)))
  {
    Text.SplitOnCount(Text.Strip(raw)[1..], '=');
  }

  /** The first writer of a variable wins: a later `@` line for a name that
      is already set changes nothing and is not evaluated. */
  lemma AssignFirstWins(env: Env, vars: Vars, raw: string)
    requires Text.Strip(raw) != "" && Text.Strip(raw)[0] == '@'
    requires multiset(Text.Strip(raw)[1..])['='] == 1
    requires Text.Strip(Text.SplitOn(Text.Strip(raw)[1..], '=')[0]) in vars
    ensures PreProcess(env, vars, raw) == (vars, Ok(None))
  {
    Text.SplitOnCount(Text.Strip(raw)[1..], '=');
  }

  /** A new name whose expression evaluates is set to its value (the
      name stripped), and the line produces nothing. `body` is the text
      after the `@`. */
  lemma AssignSets(env: Env, vars: Vars, body: string, v: Value)
    requires |Text.SplitOn(body, '=')| == 2
    requires var lhs := Text.SplitOn(body, '=')[0];
      Text.Strip(lhs) !in vars && AssignTarget(lhs) && env.eval(Text.SplitOn(body, '=')[1], vars) == Some(v)
    ensures Assign(env, vars, body) == (vars[Text.Strip(Text.SplitOn(body, '=')[0]) := v], Ok(None))
  {
    StripOfTarget(Text.SplitOn(body, '=')[0]);
  }

  /** An `@` line never yields text to parse. */
  lemma AssignYieldsNothing(env: Env, vars: Vars, raw: string)
    requires Text.Strip(raw) != "" && Text.Strip(raw)[0] == '@'
    ensures PreProcess(env, vars, raw).1.Ok? ==> PreProcess(env, vars, raw).1.value == None
  {
  }

  /** A `?` line needs exactly two `?`. */
  lemma ConditionalCount(env: Env, vars: Vars, line: string)
    requires line != [] && line[0] == '?' && multiset(line)['?'] != 2
    ensures Conditional(env, vars, line) == Err(QuestionMarks(multiset(line)['?']))
  {
    Text.PositionsExact(line, '?');
  }

  /** In `?cond?rest` with exactly two `?`, the condition is the text between
      them: false drops the line, true keeps the stripped rest, and
      anything else, or an evaluation that raises, rejects the line. */
  lemma ConditionalCases(env: Env, vars: Vars, line: string, j: nat)
    requires line != [] && line[0] == '?' && multiset(line)['?'] == 2
    requires 0 < j < |line| && line[j] == '?'
    ensures env.eval(line[1..j], vars) == Some(VBool(false)) ==> Conditional(env, vars, line) == Ok(None)
    ensures env.eval(line[1..j], vars) == Some(VBool(true)) ==>
              Conditional(env, vars, line) == Ok(Some(Text.Strip(line[j + 1..])))
    ensures env.eval(line[1..j], vars) == None ==> Conditional(env, vars, line) == Err(DirectiveFailed)
    ensures env.eval(line[1..j], vars).Some? && !env.eval(line[1..j], vars).value.VBool? ==>
              Conditional(env, vars, line) == Err(NotBoolean)
  {
    QuestionMarksAt(line, j);
    var qs := Text.Positions(line, '?');
    assert line[qs[0] + 1..qs[1]] == line[1..j];
    assert line[qs[1] + 1..] == line[j + 1..];
    var e := env.eval(line[1..j], vars);
    assert |qs| == 2 && Conditional(env, vars, line) == match e
      case None => Err(DirectiveFailed)
      case Some(VBool(b)) => if b then Ok(Some(Text.Strip(line[j + 1..]))) else Ok(None)
      case Some(_) => Err(NotBoolean);
  }

  lemma QuestionMarksAt(line: string, j: nat)
    requires line != [] && line[0] == '?' && multiset(line)['?'] == 2
    requires 0 < j < |line| && line[j] == '?'
    ensures Text.Positions(line, '?') == [0, j]
  {
    var qs := Text.Positions(line, '?');
    Text.PositionsExact(line, '?');
    assert 0 in qs && j in qs;
  }

  /** The kept rest of a true condition then has its variables substituted. */
  lemma ConditionalThenSubstitutes(env: Env, vars: Vars, line: string, j: nat)
    requires line != [] && line[0] == '?' && multiset(line)['?'] == 2
    requires 0 < j < |line| && line[j] == '?'
    requires env.eval(line[1..j], vars) == Some(VBool(true))
    ensures Expand(env, vars, line) == Substituted(Text.Strip(line[j + 1..]), vars)
  {
    ConditionalCases(env, vars, line, j);
    KeptLine(env, vars, line, Text.Strip(line[j + 1..]));
  }

  /** A kept line's text with the variables substituted, or the error. */
  function Substituted(text: string, vars: Vars): Result<Option<string>, PreFault> {
    match Template.Substitute(text, StrMap(vars))
    case Err(e) => Err(SubstFault(e))
    case Ok(t) => Ok(Some(t))
  }

  lemma KeptLine(env: Env, vars: Vars, line: string, text: string)
    requires line != [] && Conditional(env, vars, line) == Ok(Some(text))
    ensures Expand(env, vars, line) == Substituted(text, vars)
  {
  }

  // ---------------------------------------------------------------------
  // post_process: file expressions

  /** Joining non-empty `parts` ends with the last part, preceded by the
      separator when there are several. */
  lemma {:induction false} JoinEndsWithLast(parts: seq<string>, sep: string)
    requires parts != []
    ensures var j, l := Text.JoinWith(parts, sep), parts[|parts| - 1];
      && |l| <= |j| && j[|j| - |l|..] == l
      && (|parts| > 1 ==> |l| + |sep| <= |j| && j[|j| - |l| - |sep|..|j| - |l|] == sep)
  {
    if |parts| > 1 {
      var rest := Text.JoinWith(parts[1..], sep);
      JoinEndsWithLast(parts[1..], sep);
      assert Text.JoinWith(parts, sep) == parts[0] + sep + rest;
      assert parts[1..][|parts[1..]| - 1] == parts[|parts| - 1];
    }
  }

  /** The last `/`-segment of a component is a suffix of it with no `/`,
      right after the last `/` when there is one. */
  lemma LastSegmentIsSuffix(cmp: string)
    ensures var l := LastSegment(cmp);
      && '/' !in l && |l| <= |cmp| && cmp[|cmp| - |l|..] == l
      && (|l| < |cmp| ==> cmp[|cmp| - |l| - 1] == '/')
  {
    var parts := Text.SplitOn(cmp, '/');
    Text.SplitOnJoin(cmp, '/');
    JoinEndsWithLast(parts, "/");
    if |parts| == 1 {
      assert Text.JoinWith(parts, "/") == parts[0];
    } else {
      var l := parts[|parts| - 1];
      var n := |cmp|;
      assert cmp[n - |l| - 1..n - |l|] == "/";
      assert cmp[n - |l| - 1] == cmp[n - |l| - 1..n - |l|][0];
    }
  }

  /** A directive without files stands for the default file name of its
      directive and the last segment of its component; a `.dep` file
      reverses the expressions. */
  lemma ExprsChoice(env: Env, d: Directive, cmp: string)
    ensures d.files == [] ==> Exprs(env, d, cmp, false) == [env.defName(d.kind, LastSegment(cmp))]
    ensures d.files != [] ==> Exprs(env, d, cmp, false) == d.files
    ensures Exprs(env, d, cmp, true) == Reverse(Exprs(env, d, cmp, false))
  {
  }

  // ---------------------------------------------------------------------
  // post_process: the expansion loop

  /** The misses of the expressions from the `i`-th on: one entry for each
      expression that matches no file. */
  function MissesFrom(env: Env, d: Directive, pkg: string, cmp: string, path: string, rev: bool,
                      exprs: seq<string>, i: nat): (r: seq<Missing>)
    requires i <= |exprs|
    ensures forall m :: m in r ==> m.kind == d.kind && m.package == pkg && m.component == cmp && m.depFile == path
    decreases |exprs| - i
  {
    if i == |exprs| then []
    else
      var x := Expansion(env, d, pkg, cmp, rev, exprs[i]);
      (if x.1 == [] then [Missing(x.0, d.kind, pkg, cmp, path)] else []) + MissesFrom(env, d, pkg, cmp, path, rev, exprs, i + 1)
  }

  /** The non-empty file lists of the expressions from the `i`-th on. */
  function FoundFrom(env: Env, d: Directive, pkg: string, cmp: string, rev: bool,
                     exprs: seq<string>, i: nat): (r: seq<seq<(string, string)>>)
    requires i <= |exprs|
    ensures forall fl :: fl in r ==> fl != []
    decreases |exprs| - i
  {
    if i == |exprs| then []
    else
      var x := Expansion(env, d, pkg, cmp, rev, exprs[i]);
      (if x.1 != [] then [x.1] else []) + FoundFrom(env, d, pkg, cmp, rev, exprs, i + 1)
  }

  /** Every expression either misses or is found. */
  lemma {:induction false} MissesAndFound(env: Env, d: Directive, pkg: string, cmp: string, path: string, rev: bool,
                                          exprs: seq<string>, i: nat)
    requires i <= |exprs|
    ensures |MissesFrom(env, d, pkg, cmp, path, rev, exprs, i)| + |FoundFrom(env, d, pkg, cmp, rev, exprs, i)|
         == |exprs| - i
    decreases |exprs| - i
  {
    if i < |exprs| {
      MissesAndFound(env, d, pkg, cmp, path, rev, exprs, i + 1);
    }
  }

  function Repeat(x: string, n: nat): (r: seq<string>)
    ensures |r| == n && forall k :: 0 <= k < n ==> r[k] == x
  {
    if n == 0 then [] else [x] + Repeat(x, n - 1)
  }

  /** The state after the expansion of one expression. */
  function NextSession(env: Env, s: Session, d: Directive, pkg: string, cmp: string, path: string,
                       rev: bool, e: string): (r: Session)
    requires s.includes.Some?
    ensures r.includes.Some?
  {
    var x := Expansion(env, d, pkg, cmp, rev, e);
    var m := Missing(x.0, d.kind, pkg, cmp, path);
    if x.1 != [] then s.(components := AppendAt(s.components, pkg, cmp))
    else s.(missing := s.missing + [m], includes := Some(AppendEntry(s.includes.value, Miss(m))))
  }

  /** The file lists after the expansion of one expression. */
  function NextLists(env: Env, d: Directive, pkg: string, cmp: string, rev: bool, e: string,
                     lists: seq<seq<(string, string)>>): seq<seq<(string, string)>>
  {
    var x := Expansion(env, d, pkg, cmp, rev, e);
    if x.1 != [] then lists + [x.1] else lists
  }

  /** One pass of the expansion loop. */
  lemma ExpandAllStep(env: Env, s: Session, d: Directive, pkg: string, cmp: string, path: string,
                      rev: bool, exprs: seq<string>, i: nat, lists: seq<seq<(string, string)>>)
    requires s.includes.Some? && i < |exprs|
    ensures ExpandAll(env, s, d, pkg, cmp, path, rev, exprs, i, lists)
         == ExpandAll(env, NextSession(env, s, d, pkg, cmp, path, rev, exprs[i]), d, pkg, cmp, path, rev, exprs, i + 1,
                      NextLists(env, d, pkg, cmp, rev, exprs[i], lists))
  {
  }

  lemma NextMisses(env: Env, s: Session, d: Directive, pkg: string, cmp: string, path: string,
                   rev: bool, exprs: seq<string>, i: nat)
    requires s.includes.Some? && i < |exprs|
    ensures NextSession(env, s, d, pkg, cmp, path, rev, exprs[i]).missing + MissesFrom(env, d, pkg, cmp, path, rev, exprs, i + 1)
         == s.missing + MissesFrom(env, d, pkg, cmp, path, rev, exprs, i)
  {
    var x := Expansion(env, d, pkg, cmp, rev, exprs[i]);
    if x.1 == [] {
      MissAssoc(s.missing, Missing(x.0, d.kind, pkg, cmp, path), MissesFrom(env, d, pkg, cmp, path, rev, exprs, i + 1));
    }
  }

  lemma MissAssoc(a: seq<Missing>, m: Missing, b: seq<Missing>)
    ensures a + [m] + b == a + ([m] + b)
  {
  }

  lemma NextFound(env: Env, d: Directive, pkg: string, cmp: string, rev: bool, exprs: seq<string>, i: nat,
                  lists: seq<seq<(string, string)>>)
    requires i < |exprs|
    ensures NextLists(env, d, pkg, cmp, rev, exprs[i], lists) + FoundFrom(env, d, pkg, cmp, rev, exprs, i + 1)
         == lists + FoundFrom(env, d, pkg, cmp, rev, exprs, i)
  {
    var x := Expansion(env, d, pkg, cmp, rev, exprs[i]);
    if x.1 != [] {
      FoundAssoc(lists, x.1, FoundFrom(env, d, pkg, cmp, rev, exprs, i + 1));
    }
  }

  lemma FoundAssoc(a: seq<seq<(string, string)>>, x: seq<(string, string)>, b: seq<seq<(string, string)>>)
    ensures a + [x] + b == a + ([x] + b)
  {
  }

  lemma NextComponents(env: Env, s: Session, d: Directive, pkg: string, cmp: string, path: string,
                       rev: bool, exprs: seq<string>, i: nat)
    requires s.includes.Some? && i < |exprs|
    ensures var c := NextSession(env, s, d, pkg, cmp, path, rev, exprs[i]).components;
      && Lookup(c, pkg) + Repeat(cmp, |FoundFrom(env, d, pkg, cmp, rev, exprs, i + 1)|)
         == Lookup(s.components, pkg) + Repeat(cmp, |FoundFrom(env, d, pkg, cmp, rev, exprs, i)|)
      && forall p :: p != pkg ==> Lookup(c, p) == Lookup(s.components, p)
  {
    var x := Expansion(env, d, pkg, cmp, rev, exprs[i]);
    var n := |FoundFrom(env, d, pkg, cmp, rev, exprs, i + 1)|;
    FoundCount(env, d, pkg, cmp, rev, exprs, i);
    if x.1 != [] {
      LookupAppendAt(s.components, pkg, cmp);
      RepeatAfter(Lookup(s.components, pkg), cmp, n);
    }
  }

  lemma FoundCount(env: Env, d: Directive, pkg: string, cmp: string, rev: bool, exprs: seq<string>, i: nat)
    requires i < |exprs|
    ensures |FoundFrom(env, d, pkg, cmp, rev, exprs, i)|
         == (if Expansion(env, d, pkg, cmp, rev, exprs[i]).1 != [] then 1 else 0) + |FoundFrom(env, d, pkg, cmp, rev, exprs, i + 1)|
  {
  }

  lemma LookupAppendAt(m: map<string, seq<string>>, k: string, v: string)
    ensures Lookup(AppendAt(m, k, v), k) == Lookup(m, k) + [v]
    ensures forall p :: p != k ==> Lookup(AppendAt(m, k, v), p) == Lookup(m, p)
  {
  }

  lemma RepeatAfter(a: seq<string>, x: string, n: nat)
    ensures a + [x] + Repeat(x, n) == a + Repeat(x, n + 1)
  {
  }

  /** The expansion loop logs each miss once, in order. */
  lemma {:induction false} ExpandAllMisses(env: Env, s: Session, d: Directive, pkg: string, cmp: string, path: string,
                                           rev: bool, exprs: seq<string>, i: nat, lists: seq<seq<(string, string)>>)
    requires s.includes.Some? && i <= |exprs|
    ensures ExpandAll(env, s, d, pkg, cmp, path, rev, exprs, i, lists).0.missing
         == s.missing + MissesFrom(env, d, pkg, cmp, path, rev, exprs, i)
    decreases |exprs| - i
  {
    if i < |exprs| {
      ExpandAllStep(env, s, d, pkg, cmp, path, rev, exprs, i, lists);
      ExpandAllMisses(env, NextSession(env, s, d, pkg, cmp, path, rev, exprs[i]), d, pkg, cmp, path, rev, exprs, i + 1,
                      NextLists(env, d, pkg, cmp, rev, exprs[i], lists));
      NextMisses(env, s, d, pkg, cmp, path, rev, exprs, i);
    }
  }

  /** The expansion loop keeps each found list, in order. */
  lemma {:induction false} ExpandAllFound(env: Env, s: Session, d: Directive, pkg: string, cmp: string, path: string,
                                          rev: bool, exprs: seq<string>, i: nat, lists: seq<seq<(string, string)>>)
    requires s.includes.Some? && i <= |exprs|
    ensures ExpandAll(env, s, d, pkg, cmp, path, rev, exprs, i, lists).1
         == lists + FoundFrom(env, d, pkg, cmp, rev, exprs, i)
    decreases |exprs| - i
  {
    if i < |exprs| {
      ExpandAllStep(env, s, d, pkg, cmp, path, rev, exprs, i, lists);
      ExpandAllFound(env, NextSession(env, s, d, pkg, cmp, path, rev, exprs[i]), d, pkg, cmp, path, rev, exprs, i + 1,
                     NextLists(env, d, pkg, cmp, rev, exprs[i], lists));
      NextFound(env, d, pkg, cmp, rev, exprs, i, lists);
    }
  }

  /** The expansion loop registers the component once per found list under
      its package, and touches no other package. */
  lemma {:induction false} ExpandAllComponents(env: Env, s: Session, d: Directive, pkg: string, cmp: string, path: string,
                                               rev: bool, exprs: seq<string>, i: nat, lists: seq<seq<(string, string)>>)
    requires s.includes.Some? && i <= |exprs|
    ensures var r := ExpandAll(env, s, d, pkg, cmp, path, rev, exprs, i, lists).0.components;
      && Lookup(r, pkg) == Lookup(s.components, pkg) + Repeat(cmp, |FoundFrom(env, d, pkg, cmp, rev, exprs, i)|)
      && forall p :: p != pkg ==> Lookup(r, p) == Lookup(s.components, p)
    decreases |exprs| - i
  {
    if i < |exprs| {
      ExpandAllStep(env, s, d, pkg, cmp, path, rev, exprs, i, lists);
      ExpandAllComponents(env, NextSession(env, s, d, pkg, cmp, path, rev, exprs[i]), d, pkg, cmp, path, rev, exprs, i + 1,
                          NextLists(env, d, pkg, cmp, rev, exprs[i], lists));
      NextComponents(env, s, d, pkg, cmp, path, rev, exprs, i);
    }
  }

  // ---------------------------------------------------------------------
  // Turning matched files into commands

  /** The commands a file list yields from a prototype: one per file, in
      order, differing from the prototype only in the path. */
  function Stamped(proto: Command, files: seq<(string, string)>, j: nat): (r: seq<Command>)
    requires j <= |files|
    ensures |r| == |files| - j
    ensures forall t :: 0 <= t < |r| ==> r[t] == proto.(filePath := files[j + t].1)
    decreases |files| - j
  {
    if j == |files| then [] else [proto.(filePath := files[j].1)] + Stamped(proto, files, j + 1)
  }

  /** The commands of several file lists, list after list. */
  function StampedAll(proto: Command, lists: seq<seq<(string, string)>>, i: nat): (r: seq<Command>)
    requires i <= |lists|
    ensures forall c :: c in r ==> c == proto.(filePath := c.filePath)
    decreases |lists| - i
  {
    if i == |lists| then []
    else
      var h := Stamped(proto, lists[i], 0);
      assert forall c :: c in h ==> c == proto.(filePath := c.filePath);
      h + StampedAll(proto, lists, i + 1)
  }

  /** Every matched file of every list becomes a command. */
  lemma {:induction false} StampedAllCovers(proto: Command, lists: seq<seq<(string, string)>>, i: nat, a: nat, t: nat)
    requires i <= a < |lists| && t < |lists[a]|
    ensures proto.(filePath := lists[a][t].1) in StampedAll(proto, lists, i)
    decreases a - i
  {
    var h := Stamped(proto, lists[i], 0);
    if a == i {
      assert h[t] == proto.(filePath := lists[a][t].1);
    } else {
      StampedAllCovers(proto, lists, i + 1, a, t);
    }
  }

  lemma CmdAssoc(a: seq<Command>, c: Command, b: seq<Command>)
    ensures a + [c] + b == a + ([c] + b)
  {
  }

  lemma CmdAssoc2(a: seq<Command>, b: seq<Command>, c: seq<Command>)
    ensures a + b + c == a + (b + c)
  {
  }

  /** The file loop appends exactly the stamped commands to its directive's
      list and leaves the other lists alone. */
  lemma {:induction false} AddFilesLog(s: Session, k: Kind, proto: Command, path: string,
                                       files: seq<(string, string)>, j: nat)
    requires k != Include && s.includes.Some? && j <= |files|
    ensures var r := AddFiles(s, k, proto, path, files, j);
      && r.commands.Get(k) == s.commands.Get(k) + Stamped(proto, files, j)
      && forall k' :: k' != Include && k' != k ==> r.commands.Get(k') == s.commands.Get(k')
    decreases |files| - j
  {
    if j < |files| {
      var c := proto.(filePath := files[j].1);
      var s1 := AddOne(s, k, c, path);
      AddFilesStep(s, k, proto, path, files, j);
      AddFilesLog(s1, k, proto, path, files, j + 1);
      AddOneGet(s, k, c, path);
      StampedStep(proto, files, j);
      CmdAssoc(s.commands.Get(k), c, Stamped(proto, files, j + 1));
    }
  }

  lemma AddFilesStep(s: Session, k: Kind, proto: Command, path: string, files: seq<(string, string)>, j: nat)
    requires k != Include && s.includes.Some? && j < |files|
    ensures AddFiles(s, k, proto, path, files, j)
         == AddFiles(AddOne(s, k, proto.(filePath := files[j].1), path), k, proto, path, files, j + 1)
  {
  }

  lemma StampedStep(proto: Command, files: seq<(string, string)>, j: nat)
    requires j < |files|
    ensures Stamped(proto, files, j) == [proto.(filePath := files[j].1)] + Stamped(proto, files, j + 1)
  {
  }

  lemma AddOneGet(s: Session, k: Kind, c: Command, path: string)
    requires k != Include && s.includes.Some?
    ensures AddOne(s, k, c, path).commands.Get(k) == s.commands.Get(k) + [c]
    ensures forall k' :: k' != Include && k' != k ==> AddOne(s, k, c, path).commands.Get(k') == s.commands.Get(k')
  {
  }

  /** The file loop only ever adds to the map from files to the dep files
      that use them. */
  lemma {:induction false} AddFilesGrows(s: Session, k: Kind, proto: Command, path: string,
                                         files: seq<(string, string)>, j: nat)
    requires k != Include && s.includes.Some? && j <= |files|
    ensures forall f :: Lookup(s.revDep, f) <= Lookup(AddFiles(s, k, proto, path, files, j).revDep, f)
    decreases |files| - j
  {
    if j < |files| {
      var c := proto.(filePath := files[j].1);
      var s1 := AddOne(s, k, c, path);
      AddFilesGrows(s1, k, proto, path, files, j + 1);
      AddOneRevDep(s, k, c, path);
      RevDepChain(s.revDep, s1.revDep, AddFiles(s1, k, proto, path, files, j + 1).revDep);
    }
  }

  /** The file loop maps every matched file back to the dep file. */
  lemma {:induction false} AddFilesRevDep(s: Session, k: Kind, proto: Command, path: string,
                                          files: seq<(string, string)>, j: nat)
    requires k != Include && s.includes.Some? && j <= |files|
    ensures forall t :: j <= t < |files| ==> path in Lookup(AddFiles(s, k, proto, path, files, j).revDep, files[t].1)
    decreases |files| - j
  {
    if j < |files| {
      var c := proto.(filePath := files[j].1);
      var s1 := AddOne(s, k, c, path);
      var r := AddFiles(s1, k, proto, path, files, j + 1);
      AddFilesRevDep(s1, k, proto, path, files, j + 1);
      AddOneRevDep(s, k, c, path);
      AddFilesGrows(s1, k, proto, path, files, j + 1);
      PrefixHas(Lookup(s1.revDep, files[j].1), Lookup(r.revDep, files[j].1), path);
    }
  }

  lemma AddOneRevDep(s: Session, k: Kind, c: Command, path: string)
    requires k != Include && s.includes.Some?
    ensures path in Lookup(AddOne(s, k, c, path).revDep, c.filePath)
    ensures forall f :: Lookup(s.revDep, f) <= Lookup(AddOne(s, k, c, path).revDep, f)
  {
    AppendAtGrows(s.revDep, c.filePath, path);
  }

  lemma PrefixHas(a: seq<string>, b: seq<string>, x: string)
    requires a <= b && x in a
    ensures x in b
  {
    var i :| 0 <= i < |a| && a[i] == x;
    assert b[i] == x;
  }

  lemma AppendAtGrows(m: map<string, seq<string>>, k: string, v: string)
    ensures v in Lookup(AppendAt(m, k, v), k)
    ensures forall f :: Lookup(m, f) <= Lookup(AppendAt(m, k, v), f)
  {
  }

  lemma RevDepChain(a: map<string, seq<string>>, b: map<string, seq<string>>, c: map<string, seq<string>>)
    requires forall f :: Lookup(a, f) <= Lookup(b, f)
    requires forall f :: Lookup(b, f) <= Lookup(c, f)
    ensures forall f :: Lookup(a, f) <= Lookup(c, f)
  {
    forall f
      ensures Lookup(a, f) <= Lookup(c, f)
    {
      var x, y, z := Lookup(a, f), Lookup(b, f), Lookup(c, f);
      assert x <= y && y <= z;
    }
  }

  /** The list loop appends the commands of every list, in order. */
  lemma {:induction false} AddListsLog(s: Session, k: Kind, proto: Command, path: string,
                                       lists: seq<seq<(string, string)>>, i: nat)
    requires k != Include && s.includes.Some? && i <= |lists|
    ensures var r := AddLists(s, k, proto, path, lists, i);
      && r.commands.Get(k) == s.commands.Get(k) + StampedAll(proto, lists, i)
      && forall k' :: k' != Include && k' != k ==> r.commands.Get(k') == s.commands.Get(k')
    decreases |lists| - i
  {
    if i < |lists| {
      var s1 := AddFiles(s, k, proto, path, lists[i], 0);
      AddFilesLog(s, k, proto, path, lists[i], 0);
      AddListsLog(s1, k, proto, path, lists, i + 1);
      CmdAssoc2(s.commands.Get(k), Stamped(proto, lists[i], 0), StampedAll(proto, lists, i + 1));
    }
  }

  /** A non-include line appends one command per matched file to its
      directive's list, each carrying the line's package, component,
      library and flags, and changes no other list. */
  lemma AddCommandsLog(s: Session, d: Directive, pkg: string, cmp: string, path: string,
                       lists: seq<seq<(string, string)>>)
    requires d.kind != Include && s.includes.Some?
    ensures var r := AddCommands(s, d, pkg, cmp, path, lists);
      var added := StampedAll(Prototype(d, pkg, cmp), lists, 0);
      && r.commands.Get(d.kind) == s.commands.Get(d.kind) + added
      && (forall k :: k != Include && k != d.kind ==> r.commands.Get(k) == s.commands.Get(k))
      && (forall a, t :: 0 <= a < |lists| && 0 <= t < |lists[a]| ==>
            exists c :: c in added && c.filePath == lists[a][t].1)
      && forall c :: c in added ==>
           && c.package == pkg && c.component == cmp && c.lib == LibOf(d)
           && c.included == !d.noinclude && c.topLevel == d.toplevel
           && c.vhdl2008 == (d.kind == Src && d.vhdl2008) && c.finalise == d.finalise
  {
    var proto := Prototype(d, pkg, cmp);
    var s1 := if LibOf(d).Some? then s.(libs := s.libs + [LibOf(d).value]) else s;
    AddListsLog(s1, d.kind, proto, path, lists, 0);
    forall a, t | 0 <= a < |lists| && 0 <= t < |lists[a]|
      ensures exists c :: c in StampedAll(proto, lists, 0) && c.filePath == lists[a][t].1
    {
      StampedAllCovers(proto, lists, 0, a, t);
    }
  }

  // ---------------------------------------------------------------------
  // The order of a file's commands

  /** The results of `f` on the elements of `xs`, one after the other. */
  function ConcatMap<T>(f: T -> seq<Command>, xs: seq<T>): seq<Command> {
    if xs == [] then [] else f(xs[0]) + ConcatMap(f, xs[1..])
  }

  lemma {:induction false} ConcatMapSnoc<T>(f: T -> seq<Command>, xs: seq<T>)
    requires xs != []
    ensures ConcatMap(f, xs) == ConcatMap(f, xs[..|xs| - 1]) + f(xs[|xs| - 1])
  {
    if |xs| == 1 {
      assert xs[1..] == [] && xs[..0] == [];
    } else {
      var init := xs[..|xs| - 1];
      ConcatMapSnoc(f, xs[1..]);
      assert xs[1..][..|xs| - 2] == init[1..];
      CmdAssoc2(f(xs[0]), ConcatMap(f, init[1..]), f(xs[|xs| - 1]));
    }
  }

  lemma ReverseAppend(a: seq<Command>, b: seq<Command>)
    ensures Reverse(a + b) == Reverse(b) + Reverse(a)
  {
    var l := Reverse(a + b);
    var r := Reverse(b) + Reverse(a);
    forall i | 0 <= i < |l|
      ensures l[i] == r[i]
    {
      if i < |b| {
        assert r[i] == Reverse(b)[i];
      } else {
        assert r[i] == Reverse(a)[i - |b|];
      }
    }
  }

  /** Mapping the reversed sequence with reversed results reverses the
      whole concatenation. */
  lemma {:induction false} ConcatMapReverse<T>(f: T -> seq<Command>, g: T -> seq<Command>, xs: seq<T>)
    requires forall x :: x in xs ==> g(x) == Reverse(f(x))
    ensures ConcatMap(g, Reverse(xs)) == Reverse(ConcatMap(f, xs))
  {
    if xs != [] {
      var init := xs[..|xs| - 1];
      var last := xs[|xs| - 1];
      assert Reverse(xs)[1..] == Reverse(init);
      assert forall x :: x in init ==> x in xs;
      ConcatMapReverse(f, g, init);
      ConcatMapSnoc(f, xs);
      ReverseAppend(ConcatMap(f, init), f(last));
    }
  }

  /** The package and the component a line's `-c` option selects. */
  function LinePkg(d: Directive, pkg: string): string {
    if d.component.package.Some? then d.component.package.value else pkg
  }

  function LineCmp(d: Directive, cmp: string): string {
    if d.component.component.Some? then d.component.component.value else cmp
  }

  /** The commands of one file expression: one per file it matches. */
  function ExprMap(env: Env, d: Directive, pkg: string, cmp: string, rev: bool): string -> seq<Command> {
    (e: string) => Stamped(Prototype(d, pkg, cmp), Expansion(env, d, pkg, cmp, rev, e).1, 0)
  }

  /** The commands a non-include line appends to its directive's list, one
      per matched file, expression after expression. */
  function LineCommands(env: Env, d: Directive, pkg: string, cmp: string, rev: bool): seq<Command> {
    var lpkg := LinePkg(d, pkg);
    var lcmp := LineCmp(d, cmp);
    ConcatMap(ExprMap(env, d, lpkg, lcmp, rev), Exprs(env, d, lcmp, rev))
  }

  /** The commands a parsed line appends to the list of kind `k`. */
  function LineMap(env: Env, pkg: string, cmp: string, rev: bool, k: Kind): Option<Directive> -> seq<Command> {
    (p: Option<Directive>) => if p.Some? && p.value.kind == k then LineCommands(env, p.value, pkg, cmp, rev) else []
  }

  /** Every parsed line names a directive, and none is an include. */
  predicate AddLinesOnly(ps: seq<Option<Directive>>) {
    forall i :: 0 <= i < |ps| ==> ps[i].Some? && ps[i].value.kind != Include
  }

  lemma {:induction false} StampedAllShift(proto: Command, x: seq<(string, string)>,
                                           lists: seq<seq<(string, string)>>, j: nat)
    requires j <= |lists|
    ensures StampedAll(proto, [x] + lists, j + 1) == StampedAll(proto, lists, j)
    decreases |lists| - j
  {
    if j < |lists| {
      assert ([x] + lists)[j + 1] == lists[j];
      StampedAllShift(proto, x, lists, j + 1);
    }
  }

  lemma StampedAllCons(proto: Command, x: seq<(string, string)>, lists: seq<seq<(string, string)>>)
    ensures StampedAll(proto, [x] + lists, 0) == Stamped(proto, x, 0) + StampedAll(proto, lists, 0)
  {
    StampedAllShift(proto, x, lists, 0);
  }

  /** The found lists of the expressions from the `i`-th on give, list after
      list, the commands of those expressions. */
  lemma {:induction false} FoundStamped(env: Env, d: Directive, pkg: string, cmp: string, rev: bool,
                                        exprs: seq<string>, i: nat)
    requires i <= |exprs|
    ensures StampedAll(Prototype(d, pkg, cmp), FoundFrom(env, d, pkg, cmp, rev, exprs, i), 0)
         == ConcatMap(ExprMap(env, d, pkg, cmp, rev), exprs[i..])
    decreases |exprs| - i
  {
    if i < |exprs| {
      var proto := Prototype(d, pkg, cmp);
      var f := ExprMap(env, d, pkg, cmp, rev);
      var x := Expansion(env, d, pkg, cmp, rev, exprs[i]);
      var rest := FoundFrom(env, d, pkg, cmp, rev, exprs, i + 1);
      FoundStamped(env, d, pkg, cmp, rev, exprs, i + 1);
      assert exprs[i..][0] == exprs[i] && exprs[i..][1..] == exprs[i + 1..];
      assert ConcatMap(f, exprs[i..]) == f(exprs[i]) + ConcatMap(f, exprs[i + 1..]);
      assert f(exprs[i]) == Stamped(proto, x.1, 0);
      if x.1 != [] {
        assert FoundFrom(env, d, pkg, cmp, rev, exprs, i) == [x.1] + rest;
        StampedAllCons(proto, x.1, rest);
      } else {
        assert FoundFrom(env, d, pkg, cmp, rev, exprs, i) == rest;
      }
    }
  }

  /** Stamping a reversed file list gives the reversed commands. */
  lemma StampedReverse(proto: Command, files: seq<(string, string)>)
    ensures Stamped(proto, Reverse(files), 0) == Reverse(Stamped(proto, files, 0))
  {
    var l := Stamped(proto, Reverse(files), 0);
    var r := Reverse(Stamped(proto, files, 0));
    forall t | 0 <= t < |l|
      ensures l[t] == r[t]
    {
    }
  }

  /** In a `.dep` file a line's expressions are taken in reverse and so are
      the files each matches, so the line appends exactly the reverse of
      what it appends in any other dep file. */
  lemma LineCommandsReversed(env: Env, d: Directive, pkg: string, cmp: string)
    ensures LineCommands(env, d, pkg, cmp, true) == Reverse(LineCommands(env, d, pkg, cmp, false))
  {
    var lpkg := LinePkg(d, pkg);
    var lcmp := LineCmp(d, cmp);
    var f := ExprMap(env, d, lpkg, lcmp, false);
    var g := ExprMap(env, d, lpkg, lcmp, true);
    forall e ensures g(e) == Reverse(f(e)) {
      StampedReverse(Prototype(d, lpkg, lcmp), env.glob(lpkg, lcmp, d.kind, e, d.cd).1);
    }
    ConcatMapReverse(f, g, Exprs(env, d, lcmp, false));
  }

  /** Lines taken in reverse, each appending its commands in reverse, append
      the reverse of what the lines append in order. */
  lemma LinesReversed(env: Env, ps: seq<Option<Directive>>, pkg: string, cmp: string, k: Kind)
    ensures ConcatMap(LineMap(env, pkg, cmp, true, k), Reverse(ps))
         == Reverse(ConcatMap(LineMap(env, pkg, cmp, false, k), ps))
  {
    var f := LineMap(env, pkg, cmp, false, k);
    var g := LineMap(env, pkg, cmp, true, k);
    forall p ensures g(p) == Reverse(f(p)) {
      if p.Some? && p.value.kind == k {
        LineCommandsReversed(env, p.value, pkg, cmp);
      }
    }
    ConcatMapReverse(f, g, ps);
  }

  lemma PostLineUnfold(env: Env, s: Session, d: Directive, path: string, pkg: string, cmp: string,
                       rev: bool, fuel: nat)
    requires s.includes.Some? && d.kind != Include
    ensures var lpkg := LinePkg(d, pkg);
      var lcmp := LineCmp(d, cmp);
      var ex := ExpandAll(env, s, d, lpkg, lcmp, path, rev, Exprs(env, d, lcmp, rev), 0, []);
      && PostLine(env, s, d, path, pkg, cmp, rev, fuel) == (AddCommands(ex.0, d, lpkg, lcmp, path, ex.1), Ok(()))
      && ex.0.commands == s.commands
  {
  }

  /** The file lists the expansion loop keeps are those of the line's
      commands. */
  lemma ExpandedLists(env: Env, s: Session, d: Directive, path: string, pkg: string, cmp: string, rev: bool)
    requires s.includes.Some?
    ensures var lpkg := LinePkg(d, pkg);
      var lcmp := LineCmp(d, cmp);
      var ex := ExpandAll(env, s, d, lpkg, lcmp, path, rev, Exprs(env, d, lcmp, rev), 0, []);
      StampedAll(Prototype(d, lpkg, lcmp), ex.1, 0) == LineCommands(env, d, pkg, cmp, rev)
  {
    var lpkg := LinePkg(d, pkg);
    var lcmp := LineCmp(d, cmp);
    var exprs := Exprs(env, d, lcmp, rev);
    ExpandAllFound(env, s, d, lpkg, lcmp, path, rev, exprs, 0, []);
    assert [] + FoundFrom(env, d, lpkg, lcmp, rev, exprs, 0) == FoundFrom(env, d, lpkg, lcmp, rev, exprs, 0);
    FoundStamped(env, d, lpkg, lcmp, rev, exprs, 0);
    assert exprs[0..] == exprs;
  }

  lemma ExpandedCommands(env: Env, s: Session, d: Directive, path: string, pkg: string, cmp: string,
                         rev: bool, k: Kind)
    requires s.includes.Some? && d.kind != Include && k != Include
    ensures var lpkg := LinePkg(d, pkg);
      var lcmp := LineCmp(d, cmp);
      var ex := ExpandAll(env, s, d, lpkg, lcmp, path, rev, Exprs(env, d, lcmp, rev), 0, []);
      AddCommands(ex.0, d, lpkg, lcmp, path, ex.1).commands.Get(k)
      == s.commands.Get(k) + LineMap(env, pkg, cmp, rev, k)(Some(d))
  {
    var lpkg := LinePkg(d, pkg);
    var lcmp := LineCmp(d, cmp);
    var ex := ExpandAll(env, s, d, lpkg, lcmp, path, rev, Exprs(env, d, lcmp, rev), 0, []);
    ExpandedLists(env, s, d, path, pkg, cmp, rev);
    AddLineCommands(env, s.commands, ex.0, d, path, pkg, cmp, lpkg, lcmp, rev, ex.1, k);
  }

  lemma AddLineCommands(env: Env, before: CommandTable, t: Session, d: Directive, path: string, pkg: string, cmp: string,
                        lpkg: string, lcmp: string, rev: bool, lists: seq<seq<(string, string)>>, k: Kind)
    requires t.includes.Some? && d.kind != Include && k != Include && t.commands == before
    requires lpkg == LinePkg(d, pkg) && lcmp == LineCmp(d, cmp)
    requires StampedAll(Prototype(d, lpkg, lcmp), lists, 0) == LineCommands(env, d, pkg, cmp, rev)
    ensures AddCommands(t, d, lpkg, lcmp, path, lists).commands.Get(k)
         == before.Get(k) + LineMap(env, pkg, cmp, rev, k)(Some(d))
  {
    var line := LineCommands(env, d, pkg, cmp, rev);
    assert LineMap(env, pkg, cmp, rev, k)(Some(d)) == if k == d.kind then line else [];
    assert AddCommands(t, d, lpkg, lcmp, path, lists).commands.Get(k)
        == before.Get(k) + if k == d.kind then line else [] by {
      AddCommandsGet(t, d, lpkg, lcmp, path, lists, k);
    }
  }

  lemma AddCommandsGet(s: Session, d: Directive, pkg: string, cmp: string, path: string,
                       lists: seq<seq<(string, string)>>, k: Kind)
    requires d.kind != Include && k != Include && s.includes.Some?
    ensures AddCommands(s, d, pkg, cmp, path, lists).commands.Get(k)
         == s.commands.Get(k) + if k == d.kind then StampedAll(Prototype(d, pkg, cmp), lists, 0) else []
  {
    AddCommandsLog(s, d, pkg, cmp, path, lists);
    if k != d.kind {
      assert s.commands.Get(k) + [] == s.commands.Get(k);
    }
  }

  /** `post_process` on a non-include line succeeds, appends the line's
      commands to its directive's list and leaves the other lists alone. */
  lemma PostLineCommands(env: Env, s: Session, d: Directive, path: string, pkg: string, cmp: string,
                         rev: bool, fuel: nat, k: Kind)
    requires s.includes.Some? && d.kind != Include && k != Include
    ensures var r := PostLine(env, s, d, path, pkg, cmp, rev, fuel);
      && r.1 == Ok(())
      && r.0.commands.Get(k) == s.commands.Get(k) + LineMap(env, pkg, cmp, rev, k)(Some(d))
  {
    PostLineUnfold(env, s, d, path, pkg, cmp, rev, fuel);
    ExpandedCommands(env, s, d, path, pkg, cmp, rev, k);
  }

  lemma PostAllStep(env: Env, s: Session, ps: seq<Option<Directive>>, path: string,
                    pkg: string, cmp: string, rev: bool, i: nat, fuel: nat)
    requires s.includes.Some? && i < |ps| && ps[i].Some?
    requires PostLine(env, s, ps[i].value, path, pkg, cmp, rev, fuel).1.Ok?
    ensures PostAll(env, s, ps, path, pkg, cmp, rev, i, fuel)
         == PostAll(env, PostLine(env, s, ps[i].value, path, pkg, cmp, rev, fuel).0, ps, path, pkg, cmp, rev, i + 1, fuel)
  {
  }

  /** The second loop of `parse` over lines that are all non-include
      directives succeeds and appends to each list the commands of the lines,
      line after line, in the order it takes them. */
  lemma {:induction false} PostAllCommands(env: Env, s: Session, ps: seq<Option<Directive>>, path: string,
                                           pkg: string, cmp: string, rev: bool, i: nat, fuel: nat, k: Kind)
    requires s.includes.Some? && i <= |ps| && AddLinesOnly(ps) && k != Include
    ensures var r := PostAll(env, s, ps, path, pkg, cmp, rev, i, fuel);
      && r.1 == Ok(())
      && r.0.commands.Get(k) == s.commands.Get(k) + ConcatMap(LineMap(env, pkg, cmp, rev, k), ps[i..])
    decreases |ps| - i
  {
    if i == |ps| {
      assert s.commands.Get(k) + [] == s.commands.Get(k);
    } else {
      var f := LineMap(env, pkg, cmp, rev, k);
      var d := ps[i].value;
      var line := PostLine(env, s, d, path, pkg, cmp, rev, fuel);
      var s1 := line.0;
      assert line.1 == Ok(()) && s1.commands.Get(k) == s.commands.Get(k) + f(ps[i]) by {
        PostLineCommands(env, s, d, path, pkg, cmp, rev, fuel, k);
      }
      assert PostAll(env, s, ps, path, pkg, cmp, rev, i, fuel) == PostAll(env, s1, ps, path, pkg, cmp, rev, i + 1, fuel) by {
        PostAllStep(env, s, ps, path, pkg, cmp, rev, i, fuel);
      }
      var rest := ConcatMap(f, ps[i + 1..]);
      var r1 := PostAll(env, s1, ps, path, pkg, cmp, rev, i + 1, fuel);
      assert r1.1 == Ok(()) && r1.0.commands.Get(k) == s1.commands.Get(k) + rest by {
        PostAllCommands(env, s1, ps, path, pkg, cmp, rev, i + 1, fuel, k);
      }
      assert ConcatMap(f, ps[i..]) == f(ps[i]) + rest by {
        assert ps[i..][1..] == ps[i + 1..];
      }
      CmdAssoc2(s.commands.Get(k), f(ps[i]), rest);
    }
  }

  lemma DedupTableGet(t: CommandTable, k: Kind)
    requires k != Include
    ensures DedupTable(t).Get(k) == Dedup(t.Get(k))
  {
  }

  lemma AddLinesOnlyReverse(ps: seq<Option<Directive>>)
    requires AddLinesOnly(ps)
    ensures AddLinesOnly(Reverse(ps))
  {
  }

  /** The second loop of `parse` over the lines of a file, in reverse when
      `rev` holds. */
  lemma FileLinesCommands(env: Env, s: Session, pkg: string, cmp: string, path: string,
                          parsed: seq<Option<Directive>>, ps: seq<Option<Directive>>, rev: bool, fuel: nat, k: Kind)
    requires s.includes.Some? && AddLinesOnly(parsed) && k != Include
    requires ps == if rev then Reverse(parsed) else parsed
    ensures var r := PostAll(env, s, ps, path, pkg, cmp, rev, 0, fuel);
      var inOrder := ConcatMap(LineMap(env, pkg, cmp, false, k), parsed);
      && r.1 == Ok(())
      && r.0.commands.Get(k) == s.commands.Get(k) + (if rev then Reverse(inOrder) else inOrder)
  {
    AddLinesOnlyReverse(parsed);
    PostAllCommands(env, s, ps, path, pkg, cmp, rev, 0, fuel, k);
    assert ps[0..] == ps;
    if rev {
      LinesReversed(env, parsed, pkg, cmp, k);
    }
  }

  /** Leaving a file deduplicates the lists only at the outermost level. */
  lemma LeaveCommands(s: Session, parent: Option<Frame>, k: Kind)
    requires s.includes.Some? && s.depth > 0 && k != Include
    ensures Leave(s, parent).commands.Get(k) == if s.depth == 1 then Dedup(s.commands.Get(k)) else s.commands.Get(k)
  {
    assert Leave(s, parent).commands == if s.depth == 1 then DedupTable(s.commands) else s.commands;
    DedupTableGet(s.commands, k);
  }

  /** The second loop over the lines of a file, then one level up. */
  lemma LinesThenLeave(env: Env, s: Session, parent: Option<Frame>, pkg: string, cmp: string, path: string,
                       parsed: seq<Option<Directive>>, ps: seq<Option<Directive>>, rev: bool, fuel: nat, k: Kind)
    requires s.includes.Some? && s.depth > 0 && AddLinesOnly(parsed) && k != Include
    requires ps == if rev then Reverse(parsed) else parsed
    ensures var post := PostAll(env, s, ps, path, pkg, cmp, rev, 0, fuel);
      var inOrder := ConcatMap(LineMap(env, pkg, cmp, false, k), parsed);
      var all := s.commands.Get(k) + (if rev then Reverse(inOrder) else inOrder);
      && post.1 == Ok(()) && post.0.depth == s.depth
      && Leave(post.0, parent).commands.Get(k) == if s.depth == 1 then Dedup(all) else all
  {
    var post := PostAll(env, s, ps, path, pkg, cmp, rev, 0, fuel);
    FileLinesCommands(env, s, pkg, cmp, path, parsed, ps, rev, fuel, k);
    LeaveCommands(post.0, parent, k);
  }

  /** What the second loop, then `Leave`, leave in a list, `Process`
      leaves there. */
  lemma ProcessResult(env: Env, s: Session, parent: Option<Frame>, pkg: string, cmp: string, name: string,
                      path: string, parsed: seq<Option<Directive>>, ps: seq<Option<Directive>>, rev: bool,
                      fuel: nat, inner: nat, k: Kind, x: seq<Command>)
    requires fuel == inner + 1 && s.includes.Some? && s.depth > 0 && k != Include
    requires rev == IsDepFile(name) && ps == if rev then Reverse(parsed) else parsed
    requires var post := PostAll(env, s, ps, path, pkg, cmp, rev, 0, inner);
      post.1 == Ok(()) && post.0.depth == s.depth && Leave(post.0, parent).commands.Get(k) == x
    ensures var r := Process(env, s, parent, pkg, cmp, name, path, parsed, fuel);
      r.1 == Ok(()) && r.0.commands.Get(k) == x
  {
    ProcessUnfold(env, s, parent, pkg, cmp, name, path, parsed, fuel);
  }

  /** A dep file whose lines are all non-include directives is processed
      without error. Each list gains the commands its lines give, read in
      order, and for a `.dep` file exactly their reverse: its lines, their
      file expressions and the files each expression matches are all taken
      in reverse. Leaving the outermost file deduplicates the lists. */
  lemma ProcessCommands(env: Env, s: Session, parent: Option<Frame>, pkg: string, cmp: string, name: string,
                        path: string, parsed: seq<Option<Directive>>, fuel: nat, k: Kind)
    requires fuel > 0 && s.includes.Some? && s.depth > 0 && AddLinesOnly(parsed) && k != Include
    ensures var r := Process(env, s, parent, pkg, cmp, name, path, parsed, fuel);
      var inOrder := ConcatMap(LineMap(env, pkg, cmp, false, k), parsed);
      var all := s.commands.Get(k) + (if IsDepFile(name) then Reverse(inOrder) else inOrder);
      && r.1 == Ok(())
      && r.0.commands.Get(k) == if s.depth == 1 then Dedup(all) else all
  {
    var rev := IsDepFile(name);
    var ps := if rev then Reverse(parsed) else parsed;
    var inOrder := ConcatMap(LineMap(env, pkg, cmp, false, k), parsed);
    var all := s.commands.Get(k) + (if rev then Reverse(inOrder) else inOrder);
    var inner: nat := fuel - 1;
    LinesThenLeave(env, s, parent, pkg, cmp, path, parsed, ps, rev, inner, k);
    ProcessResult(env, s, parent, pkg, cmp, name, path, parsed, ps, rev, fuel, inner, k,
                  if s.depth == 1 then Dedup(all) else all);
  }

  // ---------------------------------------------------------------------
  // A dep file that does not exist

  /** `parse` on a dep file that does not exist logs it as a missing
      `include` of itself and fails; it has already gone one level down and
      made the file current, and it does not come back up. */
  lemma ParseFileMissing(env: Env, s: Session, pkg: string, cmp: string, name: string, fuel: nat)
    requires fuel > 0 && !env.fileExists(env.depPath(pkg, cmp, name))
    ensures var path := env.depPath(pkg, cmp, name);
      var r := ParseFile(env, s, pkg, cmp, name, fuel);
      && r.1 == Err(DepFileMissing(path))
      && r.0.missing == s.missing + [Missing(path, Include, pkg, cmp, path)]
      && r.0.depth == s.depth + 1 && r.0.includes == Some(Frame(pkg, cmp, name, []))
      && r.0.commands == s.commands && r.0.errors == s.errors && r.0.vars == s.vars
      && r.0.components == s.components && r.0.libs == s.libs && r.0.revDep == s.revDep
  {
  }

  // ---------------------------------------------------------------------
  // Deduplication

  /** `x` is the first command of `cs` equal to it. */
  predicate FirstOf(cs: seq<Command>, x: Command) {
    exists i :: 0 <= i < |cs| && cs[i] == x && forall j :: 0 <= j < i ==> !SameCommand(cs[j], x)
  }

  /** Every command the deduplication keeps is the first of its group: of
      commands naming the same file into the same library, the earliest,
      with its flags, wins. */
  lemma {:induction false} DedupKeepsFirst(cs: seq<Command>)
    ensures forall x :: x in Dedup(cs) ==> FirstOf(cs, x)
  {
    if cs != [] {
      var init := cs[..|cs| - 1];
      var c := cs[|cs| - 1];
      assert cs == init + [c];
      DedupKeepsFirst(init);
      DedupSound(init);
      forall x | x in Dedup(init)
        ensures FirstOf(init + [c], x)
      {
        FirstOfGrows(init, c, x);
      }
      if !HasSame(Dedup(init), c) {
        NoneSame(init, Dedup(init), c);
        FirstOfLast(init, c);
      }
    }
  }

  lemma FirstOfGrows(cs: seq<Command>, c: Command, x: Command)
    requires FirstOf(cs, x)
    ensures FirstOf(cs + [c], x)
  {
    var i :| 0 <= i < |cs| && cs[i] == x && forall j :: 0 <= j < i ==> !SameCommand(cs[j], x);
    assert (cs + [c])[i] == x;
    assert forall j :: 0 <= j < i ==> (cs + [c])[j] == cs[j];
  }

  lemma FirstOfLast(cs: seq<Command>, c: Command)
    requires forall j :: 0 <= j < |cs| ==> !SameCommand(cs[j], c)
    ensures FirstOf(cs + [c], c)
  {
    assert (cs + [c])[|cs|] == c;
    assert forall j :: 0 <= j < |cs| ==> (cs + [c])[j] == cs[j];
  }

  /** A command with no equal among the representatives has no equal at all. */
  lemma NoneSame(cs: seq<Command>, reps: seq<Command>, c: Command)
    requires forall x :: x in cs ==> HasSame(reps, x)
    requires !HasSame(reps, c)
    ensures forall j :: 0 <= j < |cs| ==> !SameCommand(cs[j], c)
  {
    forall j | 0 <= j < |cs|
      ensures !SameCommand(cs[j], c)
    {
      assert cs[j] in cs;
      var y :| y in reps && SameCommand(y, cs[j]);
    }
  }

  /** The commands of `cs` from the `i`-th on that have no equal before
      them, front to back: a filter of the input that keeps its order. */
  function FirstsFrom(cs: seq<Command>, i: nat): seq<Command>
    requires i <= |cs|
    decreases |cs| - i
  {
    if i == |cs| then []
    else (if HasSame(cs[..i], cs[i]) then [] else [cs[i]]) + FirstsFrom(cs, i + 1)
  }

  lemma {:induction false} FirstsFromSnoc(cs: seq<Command>, c: Command, i: nat)
    requires i <= |cs|
    ensures FirstsFrom(cs + [c], i) == FirstsFrom(cs, i) + if HasSame(cs, c) then [] else [c]
    decreases |cs| - i
  {
    var ext := cs + [c];
    if i == |cs| {
      assert ext[..i] == cs && ext[i] == c;
      assert FirstsFrom(ext, i + 1) == [];
    } else {
      assert ext[..i] == cs[..i] && ext[i] == cs[i];
      FirstsFromSnoc(cs, c, i + 1);
    }
  }

  /** The deduplication keeps exactly the commands that have no equal
      earlier in the input, each at the place of its first occurrence and in
      input order. */
  lemma {:induction false} DedupIsFirsts(cs: seq<Command>)
    ensures Dedup(cs) == FirstsFrom(cs, 0)
  {
    if cs != [] {
      var init := cs[..|cs| - 1];
      var c := cs[|cs| - 1];
      assert cs == init + [c];
      DedupIsFirsts(init);
      FirstsFromSnoc(init, c, 0);
      DedupSound(init);
      if !HasSame(Dedup(init), c) {
        NoneSame(init, Dedup(init), c);
      }
      assert HasSame(Dedup(init), c) <==> HasSame(init, c);
    }
  }

  /** The names of `xs` from the `i`-th on that do not occur before them,
      front to back. */
  function NewFrom(xs: seq<string>, i: nat): seq<string>
    requires i <= |xs|
    decreases |xs| - i
  {
    if i == |xs| then []
    else (if xs[i] in xs[..i] then [] else [xs[i]]) + NewFrom(xs, i + 1)
  }

  lemma {:induction false} NewFromSnoc(xs: seq<string>, x: string, i: nat)
    requires i <= |xs|
    ensures NewFrom(xs + [x], i) == NewFrom(xs, i) + if x in xs then [] else [x]
    decreases |xs| - i
  {
    var ext := xs + [x];
    if i == |xs| {
      assert ext[..i] == xs && ext[i] == x;
      assert NewFrom(ext, i + 1) == [];
    } else {
      assert ext[..i] == xs[..i] && ext[i] == xs[i];
      NewFromSnoc(xs, x, i + 1);
    }
  }

  /** The component deduplication keeps exactly the first occurrence of each
      name, in input order. */
  lemma {:induction false} UniqueIsNew(xs: seq<string>)
    ensures Unique(xs) == NewFrom(xs, 0)
  {
    if xs != [] {
      var init := xs[..|xs| - 1];
      var x := xs[|xs| - 1];
      assert xs == init + [x];
      UniqueIsNew(init);
      NewFromSnoc(init, x, 0);
    }
  }

  /** A list without equal commands is left as it is. */
  lemma {:induction false} DedupOfDistinct(cs: seq<Command>)
    requires Distinct(cs)
    ensures Dedup(cs) == cs
  {
    if cs != [] {
      var init := cs[..|cs| - 1];
      var c := cs[|cs| - 1];
      assert Distinct(init);
      DedupOfDistinct(init);
      forall j | 0 <= j < |init|
        ensures !SameCommand(init[j], c)
      {
        assert init[j] == cs[j];
      }
      assert !HasSame(init, c);
      assert cs == init + [c];
    }
  }

  /** Deduplicating twice is deduplicating once. */
  lemma DedupIdempotent(cs: seq<Command>)
    ensures Dedup(Dedup(cs)) == Dedup(cs)
  {
    DedupSound(cs);
    DedupOfDistinct(Dedup(cs));
  }

  /** A list without repeated names is left as it is. */
  lemma {:induction false} UniqueOfDistinct(xs: seq<string>)
    requires forall i, j :: 0 <= i < j < |xs| ==> xs[i] != xs[j]
    ensures Unique(xs) == xs
  {
    if xs != [] {
      var init := xs[..|xs| - 1];
      var x := xs[|xs| - 1];
      UniqueOfDistinct(init);
      forall j | 0 <= j < |init|
        ensures init[j] != x
      {
        assert init[j] == xs[j];
      }
      assert xs == init + [x];
    }
  }

  /** Removing repeated components twice is removing them once. */
  lemma UniqueIdempotent(xs: seq<string>)
    ensures Unique(Unique(xs)) == Unique(xs)
  {
    UniqueOfDistinct(Unique(xs));
  }

  /** Leaving the outermost file twice changes nothing more the second
      time: its lists are already free of repeats. */
  lemma UniquifyIdempotent(s: Session)
    ensures Uniquify(Uniquify(s)) == Uniquify(s)
  {
    var t := Uniquify(s);
    DedupIdempotent(s.commands.setup);
    DedupIdempotent(s.commands.util);
    DedupIdempotent(s.commands.src);
    DedupIdempotent(s.commands.addrtab);
    DedupIdempotent(s.commands.iprepo);
    forall p | p in s.components
      ensures Unique(t.components[p]) == t.components[p]
    {
      UniqueIdempotent(s.components[p]);
    }
    assert Uniquify(t).components == t.components;
  }

  // ---------------------------------------------------------------------
  // Overrides

  /** An override that unpacks into a name and a value. */
  predicate KeyValue(o: string) {
    |Text.SplitOn(o, '=')| == 2
  }

  function OverrideKey(o: string): string
    requires KeyValue(o)
  {
    Text.SplitOn(o, '=')[0]
  }

  function OverrideValue(o: string): string
    requires KeyValue(o)
  {
    Text.SplitOn(o, '=')[1]
  }

  /** Some override from `i` on sets `k`. */
  predicate SetFrom(overrides: seq<string>, i: nat, k: string) {
    exists t :: i <= t < |overrides| && KeyValue(overrides[t]) && OverrideKey(overrides[t]) == k
  }

  /** The overrides fail exactly when one of them does not unpack, and then
      with the first such one. */
  lemma {:induction false} OverridesFail(overrides: seq<string>, i: nat, vars: Vars)
    requires i <= |overrides|
    ensures var r := Overrides(overrides, i, vars);
      && (r.Err? <==> exists t :: i <= t < |overrides| && !KeyValue(overrides[t]))
      && (r.Err? ==> exists t :: i <= t < |overrides| && !KeyValue(overrides[t]) && r.error == BadOverride(overrides[t])
                        && forall u :: i <= u < t ==> KeyValue(overrides[u]))
    decreases |overrides| - i
  {
    if i < |overrides| && KeyValue(overrides[i]) {
      OverridesFail(overrides, i + 1, vars[OverrideKey(overrides[i]) := VStr(OverrideValue(overrides[i]))]);
    }
  }

  /** A name no override sets keeps its value, or stays unset. */
  lemma {:induction false} OverridesKeep(overrides: seq<string>, i: nat, vars: Vars, k: string)
    requires i <= |overrides| && Overrides(overrides, i, vars).Ok? && !SetFrom(overrides, i, k)
    ensures var r := Overrides(overrides, i, vars).value;
      (k in r <==> k in vars) && (k in vars ==> r[k] == vars[k])
    decreases |overrides| - i
  {
    if i < |overrides| {
      assert KeyValue(overrides[i]);
      assert !SetFrom(overrides, i + 1, k);
      OverridesKeep(overrides, i + 1, vars[OverrideKey(overrides[i]) := VStr(OverrideValue(overrides[i]))], k);
    }
  }

  /** Of several overrides of one name, the last one wins. */
  lemma {:induction false} OverridesLastWins(overrides: seq<string>, i: nat, vars: Vars, t: nat)
    requires i <= t < |overrides| && Overrides(overrides, i, vars).Ok?
    requires KeyValue(overrides[t]) && !SetFrom(overrides, t + 1, OverrideKey(overrides[t]))
    ensures var r := Overrides(overrides, i, vars).value;
      OverrideKey(overrides[t]) in r && r[OverrideKey(overrides[t])] == VStr(OverrideValue(overrides[t]))
    decreases t - i
  {
    assert KeyValue(overrides[i]);
    var next := vars[OverrideKey(overrides[i]) := VStr(OverrideValue(overrides[i]))];
    if i == t {
      OverridesKeep(overrides, i + 1, next, OverrideKey(overrides[t]));
    } else {
      OverridesLastWins(overrides, i + 1, next, t);
    }
  }

  /** A new parser always knows its toolset, whatever the overrides say. */
  lemma InitialToolset(toolset: string, overrides: seq<string>)
    ensures var r := InitialVars(toolset, overrides);
      && (r.Err? <==> exists t :: 0 <= t < |overrides| && !KeyValue(overrides[t]))
      && (r.Ok? ==> "toolset" in r.value && r.value["toolset"] == VStr(ToolsetVar(toolset)))
  {
    OverridesFail(overrides, 0, map[]);
  }

  // ---------------------------------------------------------------------
  // The missing-file views

  type FileView = map<string, map<string, map<string, set<string>>>>

  /** `missingFiles[p][c][e]` holds `f`. */
  predicate Listed(t: FileView, p: string, c: string, e: string, f: string) {
    p in t && c in t[p] && e in t[p][c] && f in t[p][c][e]
  }

  /** Some missing entry is the expression `e` of `p`/`c`, asked for by `f`. */
  predicate Logged(ms: seq<Missing>, p: string, c: string, e: string, f: string) {
    exists m :: m in ms && m.package == p && m.component == c && m.pathExpr == e && m.depFile == f
  }

  /** Every level of the view is populated. */
  predicate Populated(t: FileView) {
    forall p :: p in t ==> forall c :: c in t[p] ==> forall e :: e in t[p][c] ==> exists f :: f in t[p][c][e]
  }

  /** `missingFiles` lists exactly the logged misses, under their package,
      component and expression, with no empty entry. */
  lemma {:induction false} FilesOfIff(ms: seq<Missing>)
    ensures forall p, c, e, f :: Listed(FilesOf(ms), p, c, e, f) <==> Logged(ms, p, c, e, f)
    ensures Populated(FilesOf(ms))
  {
    if ms != [] {
      var init := ms[..|ms| - 1];
      var m := ms[|ms| - 1];
      FilesOfIff(init);
      var r := FilesOf(init);
      var pm := if m.package in r then r[m.package] else map[];
      var cm := if m.component in pm then pm[m.component] else map[];
      var fs := if m.pathExpr in cm then cm[m.pathExpr] else {};
      var t := r[m.package := pm[m.component := cm[m.pathExpr := fs + {m.depFile}]]];
      assert FilesOf(ms) == t;
      FilesStep(r, m, t);
      LoggedStep(init, m, ms);
    }
  }

  lemma FilesStep(r: FileView, m: Missing, t: FileView)
    requires Populated(r)
    requires var pm := if m.package in r then r[m.package] else map[];
      var cm := if m.component in pm then pm[m.component] else map[];
      var fs := if m.pathExpr in cm then cm[m.pathExpr] else {};
      t == r[m.package := pm[m.component := cm[m.pathExpr := fs + {m.depFile}]]]
    ensures forall p, c, e, f :: Listed(t, p, c, e, f) <==>
              Listed(r, p, c, e, f) || (p == m.package && c == m.component && e == m.pathExpr && f == m.depFile)
    ensures Populated(t)
  {
    assert m.depFile in t[m.package][m.component][m.pathExpr];
  }

  lemma LoggedStep(init: seq<Missing>, m: Missing, ms: seq<Missing>)
    requires ms == init + [m]
    ensures forall p, c, e, f :: Logged(ms, p, c, e, f) <==>
              Logged(init, p, c, e, f) || (p == m.package && c == m.component && e == m.pathExpr && f == m.depFile)
  {
    assert m in ms;
    forall p, c, e, f | Logged(init, p, c, e, f)
      ensures Logged(ms, p, c, e, f)
    {
      var x :| x in init && x.package == p && x.component == c && x.pathExpr == e && x.depFile == f;
      assert x in ms;
    }
  }

  /** `missingComponents` lists exactly the components of logged misses
      whose directory does not exist, under their package. */
  lemma {:induction false} ComponentsOfIff(env: Env, ms: seq<Missing>)
    ensures var t := ComponentsOf(env, ms);
      forall p, c :: (p in t && c in t[p]) <==>
        (!env.fileExists(env.componentPath(p, c)) && exists m :: m in ms && m.package == p && m.component == c)
    ensures var t := ComponentsOf(env, ms);
      forall p :: p in t ==> exists c :: c in t[p]
  {
    if ms != [] {
      var init := ms[..|ms| - 1];
      var m := ms[|ms| - 1];
      ComponentsOfIff(env, init);
      assert ms == init + [m];
      forall p, c | !env.fileExists(env.componentPath(p, c)) && exists x :: x in init && x.package == p && x.component == c
        ensures exists x :: x in ms && x.package == p && x.component == c
      {
        var x :| x in init && x.package == p && x.component == c;
        assert x in ms;
      }
      assert m in ms;
      if !env.fileExists(env.componentPath(m.package, m.component)) {
        assert m.component in ComponentsOf(env, ms)[m.package];
      }
    }
  }
}
