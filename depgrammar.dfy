/** The line grammar of dependency files: the six directives of
    `DepCmdParser` with their options, read from the whitespace-separated
    tokens of a line the way `argparse` reads them, and the
    `<package>:<component>` splitting of `ComponentAction`. */
module DepGrammar {
  import opened Wrappers
  import Text

  /** The sub-commands of `DepCmdParser`. */
  datatype Kind = Include | Setup | Util | Src | Addrtab | Iprepo

  function KindName(k: Kind): string {
    match k
    case Include => "include"
    case Setup => "setup"
    case Util => "util"
    case Src => "src"
    case Addrtab => "addrtab"
    case Iprepo => "iprepo"
  }

  /** The sub-command a token names, if any. */
  function KindOf(t: string): (r: Option<Kind>)
    ensures r.Some? ==> KindName(r.value) == t
    ensures r.None? ==> forall k: Kind :: KindName(k) != t
  {
    if t == "include" then Some(Include)
    else if t == "setup" then Some(Setup)
    else if t == "util" then Some(Util)
    else if t == "src" then Some(Src)
    else if t == "addrtab" then Some(Addrtab)
    else if t == "iprepo" then Some(Iprepo)
    else None
  }

  /** The `(package, component)` pair a `-c` option stores; both are None
      when the option is absent. */
  datatype ComponentRef = ComponentRef(package: Option<string>, component: Option<string>)

  /** `ComponentAction`: `cmp` gives `(None, cmp)`, `pkg:cmp` gives
      `(pkg, cmp)`, and a value with two or more colons is rejected (the
      `ArgumentTypeError` it raises carries the value). */
  function SplitComponent(v: string): (r: Result<ComponentRef, string>)
    ensures r.Err? <==> multiset(v)[':'] > 1
    ensures r.Err? ==> r.error == v
    ensures multiset(v)[':'] == 0 ==> r == Ok(ComponentRef(None, Some(v)))
    ensures r.Ok? ==> r.value.component.Some? && ':' !in r.value.component.value
    ensures r.Ok? && r.value.package.Some? ==>
              ':' !in r.value.package.value && r.value.package.value + ":" + r.value.component.value == v
  {
    if multiset(v)[':'] > 1 then Err(v)
    else
      var parts := Text.SplitOn(v, ':');
      Text.SplitOnCount(v, ':');
      Text.SplitOnJoin(v, ':');
      if |parts| == 1 then
        assert Text.JoinWith(parts, [':']) == parts[0];
        Ok(ComponentRef(None, Some(parts[0])))
      else
        assert parts[1..] == [parts[1]];
        assert Text.JoinWith(parts, [':']) == parts[0] + [':'] + parts[1];
        Ok(ComponentRef(Some(parts[0]), Some(parts[1])))
  }

  /** `-c pkg:cmp` reads back the package and component it was written from. */
  lemma SplitComponentQualified(pkg: string, cmp: string)
    requires ':' !in pkg && ':' !in cmp
    ensures SplitComponent(pkg + ":" + cmp) == Ok(ComponentRef(Some(pkg), Some(cmp)))
  {
    var v := pkg + ":" + cmp;
    Text.SplitJoinOn([pkg, cmp], ':');
    assert Text.JoinWith([pkg, cmp], [':']) == v by {
      assert [pkg, cmp][1..] == [cmp];
    }
    Text.SplitOnCount(v, ':');
  }

  /** A parsed directive: argparse's namespace for one line. Options the
      directive does not have are stored as their absent value (None or
      false), which is how the post-processing reads a missing attribute. */
  datatype Directive = Directive(
    kind: Kind,
    component: ComponentRef,
    cd: Option<string>,
    files: seq<string>,
    lib: Option<string>,
    noinclude: bool,
    finalise: bool,
    toplevel: bool,
    vhdl2008: bool)

  function Blank(k: Kind): Directive {
    Directive(k, ComponentRef(None, None), None, [], None, false, false, false, false)
  }

  /** The shape every parsed directive has: flags only on the directives
      that define them, a package only together with a component, and at
      least one file for `src`. */
  predicate WellFormed(d: Directive) {
    && (d.lib.Some? || d.noinclude || d.vhdl2008 ==> d.kind == Src)
    && (d.finalise ==> d.kind == Setup)
    && (d.toplevel ==> d.kind == Addrtab)
    && (d.component.package.Some? ==> d.component.component.Some?)
    && (d.kind == Src ==> d.files != [])
  }

  /** The options of the sub-parsers; `OHelp` is argparse's own `-h`. */
  datatype Opt = OHelp | OComponent | OCd | OLib | ONoinclude | OFinalise | OToplevel | OVhdl2008

  /** The option an exact option string names in the sub-parser of `k`. */
  function OptionOf(k: Kind, t: string): Option<Opt> {
    if t == "-h" || t == "--help" then Some(OHelp)
    else if t == "-c" || t == "--component" then Some(OComponent)
    else if t == "--cd" then Some(OCd)
    else if k == Setup && (t == "-f" || t == "--finalise") then Some(OFinalise)
    else if k == Src && (t == "-l" || t == "--lib") then Some(OLib)
    else if k == Src && (t == "-n" || t == "--noinclude") then Some(ONoinclude)
    else if k == Src && t == "--vhdl2008" then Some(OVhdl2008)
    else if k == Addrtab && (t == "-t" || t == "--toplevel") then Some(OToplevel)
    else None
  }

  predicate IsDigit(c: char) {
    '0' <= c <= '9'
  }

  predicate AllDigits(s: string) {
    forall k :: 0 <= k < |s| ==> IsDigit(s[k])
  }

  /** argparse's negative-number pattern `-\d+` or `-\d*\.\d+`. */
  predicate IsNegativeNumber(t: string) {
    && |t| >= 2 && t[0] == '-'
    && (|| AllDigits(t[1..])
        || exists i :: 1 <= i < |t| - 1 && t[i] == '.' && AllDigits(t[1..i]) && AllDigits(t[i + 1..]))
  }

  /** argparse reads a token as an option string when it starts with `-`, is
      longer than one character and is not a negative number (none of the
      parsers defines an option that looks like one). */
  predicate OptionLike(t: string) {
    |t| > 1 && t[0] == '-' && !IsNegativeNumber(t)
  }

  /** Where the sub-parser is with respect to its `file` positional, which
      takes the first contiguous run of positional tokens. */
  datatype Phase = BeforeFiles | InFiles | AfterFiles

  datatype SubState = SubState(d: Directive, phase: Phase, extras: seq<string>)

  /** Why argparse stops: `ParserExit` is the `SystemExit` of a sub-parser
      (missing option value, missing `src` file, `-h`) or of the top-level
      `-h`; `MalformedComponent` is `ComponentAction`'s error, which escapes
      argparse; `InvalidKind` and `Unrecognized` are reported through
      `DepCmdParser.error`. */
  datatype ArgFault =
    | ParserExit
    | MalformedComponent(value: string)
    | InvalidKind(token: string)
    | Unrecognized(extras: seq<string>)

  /** The faults `DepCmdParser.error` turns into `DepCmdParserError`. */
  predicate IsDepCmdParserError(f: ArgFault) {
    f.InvalidKind? || f.Unrecognized?
  }

  predicate Consistent(k: Kind, st: SubState) {
    && st.d.kind == k
    && (st.d.lib.Some? || st.d.noinclude || st.d.vhdl2008 ==> k == Src)
    && (st.d.finalise ==> k == Setup)
    && (st.d.toplevel ==> k == Addrtab)
    && (st.d.component.package.Some? ==> st.d.component.component.Some?)
    && (st.phase == BeforeFiles ==> st.d.files == [])
  }

  /** A positional token joins the files while the first run lasts, and is
      an extra after it. */
  function TakePositional(k: Kind, st: SubState, t: string): (r: SubState)
    requires Consistent(k, st)
    ensures Consistent(k, r)
    ensures forall f :: f in r.d.files ==> f in st.d.files || f == t
    ensures st.d.files != [] ==> r.d.files != []
  {
    if st.phase != AfterFiles then st.(d := st.d.(files := st.d.files + [t]), phase := InFiles)
    else st.(extras := st.extras + [t])
  }

  /** An option string ends the run of files. */
  function EndRun(st: SubState): SubState {
    if st.phase == InFiles then st.(phase := AfterFiles) else st
  }

  predicate IsFlag(o: Opt) {
    o == ONoinclude || o == OFinalise || o == OToplevel || o == OVhdl2008
  }

  /** A `store_true` option. */
  function SetFlag(k: Kind, st: SubState, o: Opt, t: string): (r: SubState)
    requires Consistent(k, st) && IsFlag(o) && OptionOf(k, t) == Some(o)
    ensures Consistent(k, r) && r.d.files == st.d.files
  {
    match o
    case ONoinclude => st.(d := st.d.(noinclude := true))
    case OFinalise => st.(d := st.d.(finalise := true))
    case OToplevel => st.(d := st.d.(toplevel := true))
    case OVhdl2008 => st.(d := st.d.(vhdl2008 := true))
  }

  /** An option with one value; the last occurrence wins. */
  function SetValue(k: Kind, st: SubState, o: Opt, t: string, v: string): (r: Result<SubState, ArgFault>)
    requires Consistent(k, st) && !IsFlag(o) && o != OHelp && OptionOf(k, t) == Some(o)
    ensures r.Ok? ==> Consistent(k, r.value) && r.value.d.files == st.d.files
    ensures r.Err? ==> r.error == MalformedComponent(v)
  {
    if o == OCd then Ok(st.(d := st.d.(cd := Some(v))))
    else if o == OLib then Ok(st.(d := st.d.(lib := Some(v))))
    else match SplitComponent(v)
      case Err(_) => Err(MalformedComponent(v))
      case Ok(c) => Ok(st.(d := st.d.(component := c)))
  }

  /** The sub-parser of `k` on the tokens after the directive name, left to
      right: unknown option strings and positional tokens after the first
      run are set aside as extras; a missing `src` file is reported last. */
  function SubParse(k: Kind, toks: seq<string>, st: SubState): (r: Result<SubState, ArgFault>)
    requires Consistent(k, st)
    ensures r.Ok? ==> Consistent(k, r.value) && (k == Src ==> r.value.d.files != [])
    ensures r.Ok? ==> forall f :: f in r.value.d.files ==> f in st.d.files || f in toks
    ensures r.Err? ==> !IsDepCmdParserError(r.error)
    decreases |toks|
  {
    if toks == [] then
      if k == Src && st.d.files == [] then Err(ParserExit) else Ok(st)
    else
      var t := toks[0];
      if !OptionLike(t) then SubParse(k, toks[1..], TakePositional(k, st, t))
      else
        var st1 := EndRun(st);
        match OptionOf(k, t)
        case None => SubParse(k, toks[1..], st1.(extras := st1.extras + [t]))
        case Some(o) =>
          if o == OHelp then Err(ParserExit)
          else if IsFlag(o) then SubParse(k, toks[1..], SetFlag(k, st1, o, t))
          else if |toks| < 2 || OptionLike(toks[1]) then Err(ParserExit)
          else match SetValue(k, st1, o, t, toks[1])
            case Err(e) => Err(e)
            case Ok(st2) => SubParse(k, toks[2..], st2)
  }

  /** `DepCmdParser.parse_args(tokens)`. Option strings before the directive
      name belong to the top-level parser, which knows only `-h`; the first
      other token must name a directive. No tokens at all give a namespace
      without a directive (None). Extras of either parser are reported
      together once the sub-parser has finished. */
  function ParseFrom(toks: seq<string>, extras: seq<string>): (r: Result<Option<Directive>, ArgFault>)
    ensures r.Ok? && r.value.Some? ==> WellFormed(r.value.value)
    ensures r.Ok? && r.value.Some? ==> forall f :: f in r.value.value.files ==> f in toks
    ensures r == Ok(None) <==> toks == [] && extras == []
    decreases |toks|
  {
    if toks == [] then
      if extras == [] then Ok(None) else Err(Unrecognized(extras))
    else
      var t := toks[0];
      if t == "-h" || t == "--help" then Err(ParserExit)
      else if OptionLike(t) then ParseFrom(toks[1..], extras + [t])
      else match KindOf(t)
        case None => Err(InvalidKind(t))
        case Some(k) =>
          match SubParse(k, toks[1..], SubState(Blank(k), BeforeFiles, []))
          case Err(e) => Err(e)
          case Ok(st) =>
            if extras + st.extras == [] then Ok(Some(st.d)) else Err(Unrecognized(extras + st.extras))
  }

  function ParseTokens(toks: seq<string>): Result<Option<Directive>, ArgFault> {
    ParseFrom(toks, [])
  }

  /** The `-c` value that reads back as `c`. */
  function ComponentText(c: ComponentRef): string
    requires c.component.Some?
  {
    (if c.package.Some? then c.package.value + ":" else "") + c.component.value
  }

  /** The tokens of a directive written in canonical form: the name, the
      options, then the files. */
  function Render(d: Directive): seq<string> {
    [KindName(d.kind)] + OptionTokens(d)
  }

  function OptionTokens(d: Directive): seq<string> {
    (if d.component.component.Some? then ["-c", ComponentText(d.component)] else [])
    + ValueTokens(d)
  }

  function ValueTokens(d: Directive): seq<string> {
    (if d.cd.Some? then ["--cd", d.cd.value] else [])
    + ((if d.lib.Some? then ["-l", d.lib.value] else [])
    + FlagTokens(d))
  }

  function FlagTokens(d: Directive): seq<string> {
    (if d.noinclude then ["-n"] else [])
    + ((if d.finalise then ["-f"] else [])
    + LateFlagTokens(d))
  }

  function LateFlagTokens(d: Directive): seq<string> {
    (if d.toplevel then ["-t"] else [])
    + ((if d.vhdl2008 then ["--vhdl2008"] else [])
    + d.files)
  }

  /** Directives that can be written as a line: no value or file that reads
      as an option string, and colon-free package and component names. */
  predicate Renderable(d: Directive) {
    && WellFormed(d)
    && (d.component.component.Some? ==>
          && ':' !in d.component.component.value
          && (d.component.package.Some? ==> ':' !in d.component.package.value)
          && !OptionLike(ComponentText(d.component)))
    && (d.cd.Some? ==> !OptionLike(d.cd.value))
    && (d.lib.Some? ==> !OptionLike(d.lib.value))
    && (forall i :: 0 <= i < |d.files| ==> !OptionLike(d.files[i]))
  }

  /** The state the sub-parser ends in after reading a rendered directive. */
  function Finished(d: Directive): SubState {
    SubState(d, if d.files == [] then BeforeFiles else InFiles, [])
  }

  lemma {:induction false} FilesRun(k: Kind, files: seq<string>, st: SubState)
    requires Consistent(k, st) && st.phase != AfterFiles
    requires forall i :: 0 <= i < |files| ==> !OptionLike(files[i])
    requires k == Src ==> st.d.files + files != []
    ensures SubParse(k, files, st)
         == Ok(st.(d := st.d.(files := st.d.files + files), phase := if files == [] then st.phase else InFiles))
  {
    if files == [] {
      assert st.d.files + files == st.d.files;
      assert st.(d := st.d.(files := st.d.files + files)) == st;
    } else {
      var st1 := TakePositional(k, st, files[0]);
      assert st1 == st.(d := st.d.(files := st.d.files + [files[0]]), phase := InFiles);
      assert st1.d.files + files[1..] == st.d.files + files by {
        assert [files[0]] + files[1..] == files;
      }
      FilesRun(k, files[1..], st1);
    }
  }

  lemma FlagGroup(k: Kind, present: bool, t: string, o: Opt, toks: seq<string>, rest: seq<string>,
                  st: SubState, st': SubState)
    requires Consistent(k, st) && st.phase == BeforeFiles
    requires toks == (if present then [t] else []) + rest
    requires present ==> OptionOf(k, t) == Some(o) && IsFlag(o) && OptionLike(t)
    requires present ==> st' == SetFlag(k, st, o, t)
    requires !present ==> st' == st
    ensures Consistent(k, st') && st'.phase == BeforeFiles
    ensures SubParse(k, toks, st) == SubParse(k, rest, st')
  {
    if present {
      assert toks[0] == t && toks[1..] == rest;
    } else {
      assert toks == rest;
    }
  }

  lemma ValueGroup(k: Kind, present: bool, t: string, o: Opt, v: string, toks: seq<string>, rest: seq<string>,
                   st: SubState, st': SubState)
    requires Consistent(k, st) && st.phase == BeforeFiles
    requires toks == (if present then [t, v] else []) + rest
    requires present ==> OptionOf(k, t) == Some(o) && !IsFlag(o) && o != OHelp
    requires present ==> OptionLike(t) && !OptionLike(v)
    requires present ==> SetValue(k, st, o, t, v) == Ok(st')
    requires !present ==> st' == st
    ensures Consistent(k, st') && st'.phase == BeforeFiles
    ensures SubParse(k, toks, st) == SubParse(k, rest, st')
  {
    if present {
      assert toks[0] == t && toks[1] == v && toks[2..] == rest;
    } else {
      assert toks == rest;
    }
  }

  /** The short option strings a directive is written with, and the options
      they name in the sub-parsers that define them. */
  lemma OptionTable(k: Kind)
    ensures OptionOf(k, "-c") == Some(OComponent) && OptionOf(k, "--cd") == Some(OCd)
    ensures k == Src ==> OptionOf(k, "-l") == Some(OLib) && OptionOf(k, "-n") == Some(ONoinclude)
    ensures k == Src ==> OptionOf(k, "--vhdl2008") == Some(OVhdl2008)
    ensures k == Setup ==> OptionOf(k, "-f") == Some(OFinalise)
    ensures k == Addrtab ==> OptionOf(k, "-t") == Some(OToplevel)
  {
  }

  /** A token `-x` whose second character is not a digit is an option string. */
  lemma DashWord(t: string)
    requires |t| >= 2 && t[0] == '-' && !IsDigit(t[1]) && t[1] != '.'
    ensures OptionLike(t)
  {
    assert !AllDigits(t[1..]) by { assert t[1..][0] == t[1]; }
  }

  lemma OptionStrings()
    ensures OptionLike("-c") && OptionLike("--cd") && OptionLike("-l") && OptionLike("-n")
    ensures OptionLike("-f") && OptionLike("-t") && OptionLike("--vhdl2008")
  {
    DashWord("-c");
    DashWord("--cd");
    DashWord("-l");
    DashWord("-n");
    DashWord("-f");
    DashWord("-t");
    DashWord("--vhdl2008");
  }

  lemma ComponentReadsBack(c: ComponentRef)
    requires c.component.Some? && ':' !in c.component.value
    requires c.package.Some? ==> ':' !in c.package.value
    ensures SplitComponent(ComponentText(c)) == Ok(c)
  {
    if c.package.Some? {
      SplitComponentQualified(c.package.value, c.component.value);
    } else {
      assert ComponentText(c) == c.component.value;
    }
  }

  /** The last two flags of a directive, then its files, read back from a
      state that holds everything else. */
  lemma LateFlagsRead(d: Directive, s5: SubState)
    requires Renderable(d)
    requires s5 == SubState(d.(files := [], toplevel := false, vhdl2008 := false), BeforeFiles, [])
    ensures SubParse(d.kind, LateFlagTokens(d), s5) == Ok(Finished(d))
  {
    OptionStrings();
    OptionTable(d.kind);
    var s6 := SubState(d.(files := [], vhdl2008 := false), BeforeFiles, []);
    var r7 := (if d.vhdl2008 then ["--vhdl2008"] else []) + d.files;
    FlagGroup(d.kind, d.toplevel, "-t", OToplevel, LateFlagTokens(d), r7, s5, s6);
    VhdlRead(d, s6);
  }

  /** The `--vhdl2008` flag of a directive, then its files. */
  lemma VhdlRead(d: Directive, s6: SubState)
    requires Renderable(d)
    requires s6 == SubState(d.(files := [], vhdl2008 := false), BeforeFiles, [])
    ensures SubParse(d.kind, (if d.vhdl2008 then ["--vhdl2008"] else []) + d.files, s6) == Ok(Finished(d))
  {
    OptionStrings();
    OptionTable(d.kind);
    var s7 := SubState(d.(files := []), BeforeFiles, []);
    FlagGroup(d.kind, d.vhdl2008, "--vhdl2008", OVhdl2008, (if d.vhdl2008 then ["--vhdl2008"] else []) + d.files,
              d.files, s6, s7);
    FilesRead(d, s7);
  }

  /** The files of a directive, read into a state that holds everything else. */
  lemma FilesRead(d: Directive, s7: SubState)
    requires Renderable(d)
    requires s7 == SubState(d.(files := []), BeforeFiles, [])
    ensures SubParse(d.kind, d.files, s7) == Ok(Finished(d))
  {
    FilesRun(d.kind, d.files, s7);
    assert [] + d.files == d.files;
  }

  /** The flags of a directive, then its files, read back from a state that
      holds its other options. */
  lemma FlagsRead(d: Directive, s3: SubState)
    requires Renderable(d)
    requires s3 == SubState(d.(files := [], noinclude := false, finalise := false, toplevel := false, vhdl2008 := false),
                            BeforeFiles, [])
    ensures SubParse(d.kind, FlagTokens(d), s3) == Ok(Finished(d))
  {
    OptionStrings();
    OptionTable(d.kind);
    var s4 := SubState(d.(files := [], finalise := false, toplevel := false, vhdl2008 := false), BeforeFiles, []);
    var s5 := SubState(d.(files := [], toplevel := false, vhdl2008 := false), BeforeFiles, []);
    var r5 := (if d.finalise then ["-f"] else []) + LateFlagTokens(d);
    FlagGroup(d.kind, d.noinclude, "-n", ONoinclude, FlagTokens(d), r5, s3, s4);
    FlagGroup(d.kind, d.finalise, "-f", OFinalise, r5, LateFlagTokens(d), s4, s5);
    LateFlagsRead(d, s5);
  }

  /** The `--cd` and `-l` options, flags and files of a directive, read back
      from a state that holds its component. */
  lemma ValuesRead(d: Directive, s1: SubState)
    requires Renderable(d)
    requires s1 == SubState(Blank(d.kind).(component := d.component), BeforeFiles, [])
    ensures SubParse(d.kind, ValueTokens(d), s1) == Ok(Finished(d))
  {
    OptionStrings();
    OptionTable(d.kind);
    var s2 := SubState(Blank(d.kind).(component := d.component, cd := d.cd), BeforeFiles, []);
    var s3 := SubState(d.(files := [], noinclude := false, finalise := false, toplevel := false, vhdl2008 := false),
                       BeforeFiles, []);
    var r3 := (if d.lib.Some? then ["-l", d.lib.value] else []) + FlagTokens(d);
    ValueGroup(d.kind, d.cd.Some?, "--cd", OCd, if d.cd.Some? then d.cd.value else "", ValueTokens(d), r3, s1, s2);
    ValueGroup(d.kind, d.lib.Some?, "-l", OLib, if d.lib.Some? then d.lib.value else "", r3, FlagTokens(d), s2, s3);
    FlagsRead(d, s3);
  }

  /** The options and files of a directive, read back by its sub-parser. */
  lemma OptionsRead(d: Directive)
    requires Renderable(d)
    ensures SubParse(d.kind, OptionTokens(d), SubState(Blank(d.kind), BeforeFiles, [])) == Ok(Finished(d))
  {
    DashWord("-c");
    OptionTable(d.kind);
    var cv := if d.component.component.Some? then ComponentText(d.component) else "";
    var s0 := SubState(Blank(d.kind), BeforeFiles, []);
    var s1 := SubState(Blank(d.kind).(component := d.component), BeforeFiles, []);
    if d.component.component.Some? {
      ComponentReadsBack(d.component);
    }
    ValueGroup(d.kind, d.component.component.Some?, "-c", OComponent, cv, OptionTokens(d), ValueTokens(d), s0, s1);
    ValuesRead(d, s1);
  }

  /** Writing a directive out and parsing the line gives the directive back. */
  lemma RoundTrip(d: Directive)
    requires Renderable(d)
    ensures ParseTokens(Render(d)) == Ok(Some(d))
  {
    OptionsRead(d);
    var toks := Render(d);
    assert toks[0] == KindName(d.kind) && toks[1..] == OptionTokens(d);
    assert !OptionLike(KindName(d.kind));
  }
}
