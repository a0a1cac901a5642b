/** What the Vivado generator guarantees: which fileset each kind of file
    goes to, the shape of the commands of one source, the grouping of turbo
    mode, and the layout of the script `write` produces. */
module VivadoProperties {
  import opened Wrappers
  import Text
  import Template
  import Values
  import opened Vivado

  // ---------------------------------------------------------------------
  // Filesets and the commands of one source

  /** IP cores go to the design sources; constraint files (including Tcl)
      to the constraints; design files to the sources when synthesised, to
      the simulation set when only simulated; everything else nowhere. */
  lemma FileSetChoice(src: SrcItem)
    ensures var ext := Text.SplitExt(src.filepath).1;
      && (FileSet(src) == Some("constrs_1") <==> IsConstraintExt(ext))
      && (FileSet(src) == Some("sources_1") <==> IsIpExt(ext) || (IsDesignExt(ext) && src.useInSynth))
      && (FileSet(src) == Some("sim_1") <==> IsDesignExt(ext) && !src.useInSynth && src.useInSim)
      && (FileSet(src) == None <==>
            !IsIpExt(ext) && !IsConstraintExt(ext) && !(IsDesignExt(ext) && (src.useInSynth || src.useInSim)))
  {
  }

  /** The IP test of `write` (on the file name) and that of `fileset` (on
      the whole path) agree, so an IP core is always imported into
      `sources_1`. */
  lemma IpImportsIntoSources(src: SrcItem)
    requires IsIpExt(BaseExt(src))
    ensures FileSet(src) == Some("sources_1")
    ensures SrcCommands(src) == [SrcCmd(Ip, "import_files -norecurse -fileset " + "sources_1" + " ", "", src.filepath)]
  {
    Text.ExtOfBasename(src.filepath);
  }

  /** A source that is not an IP core yields one `add_files` followed by
      its property commands, each about the source's own file. */
  lemma AddCommands(src: SrcItem)
    requires !IsIpExt(BaseExt(src))
    ensures var cmds := SrcCommands(src);
      && cmds[0] == AddCommand(src)
      && |cmds| == 1 + (if (BaseExt(src) == ".vhd" || BaseExt(src) == ".vhdl") && src.vhdl2008 then 1 else 0)
                     + (if BaseExt(src) == ".tcl" then 1 else 0) + (if Truthy(src.lib) then 1 else 0)
      && forall k :: 1 <= k < |cmds| ==> cmds[k].kind == Prop && cmds[k].file == src.filepath
  {
    PropCommandsShape(src);
  }

  lemma PropCommandsShape(src: SrcItem)
    ensures var ps := PropCommands(src);
      && |ps| == (if (BaseExt(src) == ".vhd" || BaseExt(src) == ".vhdl") && src.vhdl2008 then 1 else 0)
                 + (if BaseExt(src) == ".tcl" then 1 else 0) + (if Truthy(src.lib) then 1 else 0)
      && PropsOn(ps, src.filepath)
  {
    var a, b, c := Vhdl2008Command(src), TclCommand(src), LibraryCommand(src);
    assert PropsOn(a, src.filepath) && PropsOn(b, src.filepath) && PropsOn(c, src.filepath);
    PropsConcat(a, b, src.filepath);
    PropsConcat(a + b, c, src.filepath);
  }

  /** Property commands, all on the file `f`. */
  predicate PropsOn(ps: seq<SrcCmd>, f: string) {
    forall k :: 0 <= k < |ps| ==> ps[k].kind == Prop && ps[k].file == f
  }

  lemma PropsConcat(a: seq<SrcCmd>, b: seq<SrcCmd>, f: string)
    requires PropsOn(a, f) && PropsOn(b, f)
    ensures PropsOn(a + b, f)
  {
  }

  // ---------------------------------------------------------------------
  // Substituting `$files`

  /** A template `prefix + "$files" + suffix` whose only placeholder is
      `$files`, with no identifier character right after it. */
  predicate Clean(prefix: string, suffix: string) {
    '$' !in prefix && '$' !in suffix && (suffix == [] || !Template.IsIdChar(suffix[0]))
  }

  predicate CleanCmd(c: SrcCmd) {
    Clean(c.prefix, c.suffix)
  }

  lemma FilesKeyIsIdentifier()
    ensures Template.IsIdentifier(FilesKey)
  {
    Template.IdTailOf("iles", "");
    assert "iles" + "" == "files"[1..];
  }

  lemma FillTail(suffix: string, x: string)
    requires '$' !in suffix && (suffix == [] || !Template.IsIdChar(suffix[0]))
    ensures Template.Substitute("$" + FilesKey + suffix, FilesArg(x)) == Ok(x + suffix)
  {
    FilesKeyIsIdentifier();
    Template.Named(FilesKey, suffix, FilesArg(x));
    Template.NoPlaceholder(suffix, FilesArg(x));
  }

  /** A clean template never fails, and puts the files where `$files` was. */
  lemma Fill(prefix: string, suffix: string, x: string)
    requires Clean(prefix, suffix)
    ensures Template.Substitute(prefix + "$" + FilesKey + suffix, FilesArg(x)) == Ok(prefix + x + suffix)
  {
    var m := FilesArg(x);
    var t := "$" + FilesKey + suffix;
    FillTail(suffix, x);
    Template.LiteralPrefix(prefix, t, m);
    assert Template.Substitute(prefix + t, m) == Ok(prefix + (x + suffix));
    assert prefix + "$" + FilesKey + suffix == prefix + t;
    assert prefix + (x + suffix) == prefix + x + suffix;
  }

  /** The library name is the only text of a source that ends up in a
      template; without a `$` in it every template of the source is clean. */
  predicate LibClean(src: SrcItem) {
    src.lib.Some? ==> '$' !in src.lib.value
  }

  predicate CleanCmds(cmds: seq<SrcCmd>) {
    forall k :: 0 <= k < |cmds| ==> CleanCmd(cmds[k])
  }

  lemma CleanConcat(a: seq<SrcCmd>, b: seq<SrcCmd>)
    requires CleanCmds(a) && CleanCmds(b)
    ensures CleanCmds(a + b)
  {
  }

  lemma SrcCommandsClean(src: SrcItem)
    requires LibClean(src)
    ensures CleanCmds(SrcCommands(src))
  {
    if IsIpExt(BaseExt(src)) {
      SingleClean(ImportCommand(src), src);
    } else {
      SingleClean(AddCommand(src), src);
      PropCommandsClean(src);
      CleanConcat([AddCommand(src)], PropCommands(src));
    }
  }

  lemma SingleClean(c: SrcCmd, src: SrcItem)
    requires c == ImportCommand(src) || c == AddCommand(src)
    ensures CleanCmds([c])
  {
    ImportAddClean(src);
  }

  lemma ImportAddClean(src: SrcItem)
    ensures CleanCmd(ImportCommand(src)) && CleanCmd(AddCommand(src))
  {
    FileSetRange(src);
    FileSetTextClean(FileSet(src));
    ImportAddLiteralsClean();
  }

  lemma PropCommandsClean(src: SrcItem)
    requires LibClean(src)
    ensures CleanCmds(PropCommands(src))
  {
    Vhdl2008Clean(src);
    TclClean(src);
    LibraryClean(src);
    CleanConcat(Vhdl2008Command(src), TclCommand(src));
    CleanConcat(Vhdl2008Command(src) + TclCommand(src), LibraryCommand(src));
  }

  lemma Vhdl2008Clean(src: SrcItem)
    ensures CleanCmds(Vhdl2008Command(src))
  {
    FileTypeClean();
    SuffixesClean();
  }

  lemma TclClean(src: SrcItem)
    ensures CleanCmds(TclCommand(src))
  {
    UsedInClean();
    SuffixesClean();
  }

  lemma LibraryClean(src: SrcItem)
    requires LibClean(src)
    ensures CleanCmds(LibraryCommand(src))
  {
    if Truthy(src.lib) {
      LibPrefixClean(src.lib.value);
    }
  }

  lemma FileSetRange(src: SrcItem)
    ensures FileSet(src) in {None, Some("sources_1"), Some("constrs_1"), Some("sim_1")}
  {
  }

  lemma FileSetTextClean(o: Option<string>)
    requires o in {None, Some("sources_1"), Some("constrs_1"), Some("sim_1")}
    ensures '$' !in FileSetText(o)
  {
  }

  lemma ImportAddLiteralsClean()
    ensures '$' !in "import_files -norecurse -fileset " && '$' !in "add_files -norecurse -fileset " && '$' !in " "
  {
  }

  lemma FileTypeClean()
    ensures '$' !in FileTypeVhdl2008 + GetFilesOpen
  {
  }

  lemma UsedInClean()
    ensures '$' !in UsedInImplementation
  {
  }

  lemma SuffixesClean()
    ensures '$' !in GetFilesOpen && Clean("", "}]") && Clean("", "} ]")
  {
  }

  lemma LibPrefixClean(lib: string)
    requires '$' !in lib
    ensures Clean("set_property library " + lib + " [ get_files {", "} ]")
  {
  }

  // ---------------------------------------------------------------------
  // The lines of the header and the trailer

  lemma {:induction false} MapLinesIndex(prefix: string, xs: seq<string>, suffix: string)
    ensures |MapLines(prefix, xs, suffix)| == |xs|
    ensures forall k :: 0 <= k < |xs| ==> MapLines(prefix, xs, suffix)[k] == prefix + xs[k] + suffix
  {
    if xs != [] {
      MapLinesIndex(prefix, xs[..|xs| - 1], suffix);
    }
  }

  /** Each IP gets its delete, generate and create commands, in that order,
      IP after IP. */
  lemma {:induction false} IpRunLinesIndex(names: seq<string>)
    ensures |IpRunLines(names)| == 3 * |names|
    ensures forall k :: 0 <= k < |names| ==>
      && IpRunLines(names)[3 * k] == "delete_ip_run [get_ips " + names[k] + "]"
      && IpRunLines(names)[3 * k + 1] == "generate_target all [get_ips " + names[k] + "]"
      && IpRunLines(names)[3 * k + 2] == "create_ip_run [get_ips " + names[k] + "]"
  {
    if names != [] {
      IpRunLinesIndex(names[..|names| - 1]);
    }
  }

  /** Every setup script is sourced exactly once: the ones without
      `finalize` in the header, the others in the trailer. */
  lemma {:induction false} SetupLinesPartition(ss: seq<SetupItem>)
    ensures |SetupLines(ss, false)| + |SetupLines(ss, true)| == |ss|
    ensures forall fin, k :: 0 <= k < |ss| && ss[k].finalize == fin ==> "source " + ss[k].filepath in SetupLines(ss, fin)
    ensures forall fin, l :: l in SetupLines(ss, fin) ==>
      exists k :: 0 <= k < |ss| && ss[k].finalize == fin && l == "source " + ss[k].filepath
  {
    if ss != [] {
      var init := ss[..|ss| - 1];
      SetupLinesPartition(init);
      forall fin, l | l in SetupLines(ss, fin)
        ensures exists k :: 0 <= k < |ss| && ss[k].finalize == fin && l == "source " + ss[k].filepath
      {
        if l in SetupLines(init, fin) {
          var k :| 0 <= k < |init| && init[k].finalize == fin && l == "source " + init[k].filepath;
          assert ss[k] == init[k];
        } else {
          assert ss[|ss| - 1].finalize == fin && l == "source " + ss[|ss| - 1].filepath;
        }
      }
      forall fin, k | 0 <= k < |ss| && ss[k].finalize == fin
        ensures "source " + ss[k].filepath in SetupLines(ss, fin)
      {
        if k < |ss| - 1 {
          assert ss[k] == init[k];
        }
      }
    }
  }

  // ---------------------------------------------------------------------
  // All sources together

  /** The commands of all sources, in order. */
  function AllCommands(srcs: seq<SrcItem>): seq<SrcCmd> {
    if srcs == [] then [] else SrcCommands(srcs[0]) + AllCommands(srcs[1..])
  }

  /** The IP names of all sources, in order. */
  function AllIpNames(srcs: seq<SrcItem>): seq<string> {
    if srcs == [] then [] else IpName(srcs[0]) + AllIpNames(srcs[1..])
  }

  lemma AllCommandsFrom(srcs: seq<SrcItem>, i: nat)
    requires i < |srcs|
    ensures AllCommands(srcs[i..]) == SrcCommands(srcs[i]) + AllCommands(srcs[i + 1..])
    ensures AllIpNames(srcs[i..]) == IpName(srcs[i]) + AllIpNames(srcs[i + 1..])
  {
    assert srcs[i..][0] == srcs[i];
    assert srcs[i..][1..] == srcs[i + 1..];
  }

  /** Without a `$` in any library name, every command is clean. */
  lemma {:induction false} AllCommandsClean(srcs: seq<SrcItem>)
    requires forall k :: 0 <= k < |srcs| ==> LibClean(srcs[k])
    ensures forall c :: c in AllCommands(srcs) ==> CleanCmd(c)
  {
    if srcs != [] {
      SrcCommandsClean(srcs[0]);
      AllCommandsClean(srcs[1..]);
    }
  }

  // ---------------------------------------------------------------------
  // Turbo mode: grouping

  /** Grouping commands one after the other. */
  function Fold(g: map<CmdType, seq<Group>>, cmds: seq<SrcCmd>): map<CmdType, seq<Group>>
    decreases |cmds|
  {
    if cmds == [] then g else Fold(AddToGroups(g, cmds[0]), cmds[1..])
  }

  lemma {:induction false} FoldAppend(g: map<CmdType, seq<Group>>, a: seq<SrcCmd>, b: seq<SrcCmd>)
    ensures Fold(g, a + b) == Fold(Fold(g, a), b)
    decreases |a|
  {
    if a == [] {
      assert a + b == b;
    } else {
      assert (a + b)[0] == a[0];
      assert (a + b)[1..] == a[1..] + b;
      FoldAppend(AddToGroups(g, a[0]), a[1..], b);
    }
  }

  /** The group types that occur in `cmds`. */
  function Kinds(cmds: seq<SrcCmd>): set<CmdType> {
    set c | c in cmds :: c.kind
  }

  /** The files of the commands of type `t` with template `tpl`, in order:
      the reference a group is checked against. */
  function FilesFor(cmds: seq<SrcCmd>, t: CmdType, tpl: string): seq<string> {
    if cmds == [] then []
    else
      var c := cmds[|cmds| - 1];
      FilesFor(cmds[..|cmds| - 1], t, tpl) + (if c.kind == t && TemplateOf(c) == tpl then [c.file] else [])
  }

  lemma FilesForSnoc(cmds: seq<SrcCmd>, c: SrcCmd, t: CmdType, tpl: string)
    ensures FilesFor(cmds + [c], t, tpl) == FilesFor(cmds, t, tpl) + (if c.kind == t && TemplateOf(c) == tpl then [c.file] else [])
  {
    assert (cmds + [c])[..|cmds|] == cmds;
  }

  lemma {:induction false} FilesForNone(cmds: seq<SrcCmd>, t: CmdType, tpl: string)
    requires forall d :: d in cmds ==> !(d.kind == t && TemplateOf(d) == tpl)
    ensures FilesFor(cmds, t, tpl) == []
  {
    if cmds != [] {
      FilesForNone(cmds[..|cmds| - 1], t, tpl);
    }
  }

  /** The ordered dictionary of each type holds no template twice. */
  predicate DistinctTemplates(g: map<CmdType, seq<Group>>) {
    forall t, i, j :: t in g && 0 <= i < j < |g[t]| ==> GroupTemplate(g[t][i]) != GroupTemplate(g[t][j])
  }

  /** Each entry holds exactly the files of its type and template, in order. */
  predicate FilesMatch(g: map<CmdType, seq<Group>>, cmds: seq<SrcCmd>) {
    forall t, i :: t in g && 0 <= i < |g[t]| ==> g[t][i].files == FilesFor(cmds, t, GroupTemplate(g[t][i]))
  }

  /** Some command of type `t` has the template of `grp`. */
  predicate HasOrigin(cmds: seq<SrcCmd>, t: CmdType, grp: Group) {
    exists c :: c in cmds && c.kind == t && c.prefix == grp.prefix && c.suffix == grp.suffix
  }

  /** Each entry's template is that of a command of its type. */
  predicate FromCommands(g: map<CmdType, seq<Group>>, cmds: seq<SrcCmd>) {
    forall t, i :: t in g && 0 <= i < |g[t]| ==> HasOrigin(cmds, t, g[t][i])
  }

  /** Some entry of `gs` has template `tpl`. */
  predicate HasEntry(gs: seq<Group>, tpl: string) {
    exists i :: 0 <= i < |gs| && GroupTemplate(gs[i]) == tpl
  }

  /** Each command's template has an entry under its type. */
  predicate Covered(g: map<CmdType, seq<Group>>, cmds: seq<SrcCmd>) {
    forall c :: c in cmds ==> c.kind in g && HasEntry(g[c.kind], TemplateOf(c))
  }

  /** `g` is the grouping of `cmds`. */
  predicate GroupsFor(g: map<CmdType, seq<Group>>, cmds: seq<SrcCmd>) {
    && g.Keys == Kinds(cmds)
    && DistinctTemplates(g)
    && FilesMatch(g, cmds)
    && FromCommands(g, cmds)
    && Covered(g, cmds)
  }

  /** What `AddToList` keeps and changes. */
  lemma AddToListFacts(gs: seq<Group>, c: SrcCmd)
    ensures var k := FindTemplate(gs, TemplateOf(c)); var gs' := AddToList(gs, c);
      && |gs'| == (if k < |gs| then |gs| else |gs| + 1)
      && (forall i :: 0 <= i < |gs| ==> gs'[i].prefix == gs[i].prefix && gs'[i].suffix == gs[i].suffix)
      && (forall i :: 0 <= i < |gs| && i != k ==> gs'[i].files == gs[i].files)
      && (k < |gs| ==> gs'[k].files == gs[k].files + [c.file])
      && (k == |gs| ==> gs'[k] == Group(c.prefix, c.suffix, [c.file]))
  {
  }

  lemma AddKeepsKeys(g: map<CmdType, seq<Group>>, cmds: seq<SrcCmd>, c: SrcCmd)
    requires g.Keys == Kinds(cmds)
    ensures AddToGroups(g, c).Keys == Kinds(cmds + [c])
  {
    assert Kinds(cmds + [c]) == Kinds(cmds) + {c.kind};
  }

  lemma AddKeepsDistinct(g: map<CmdType, seq<Group>>, c: SrcCmd)
    requires DistinctTemplates(g)
    ensures DistinctTemplates(AddToGroups(g, c))
  {
    var gs := GroupsOf(g, c.kind);
    AddToListFacts(gs, c);
  }

  lemma AddKeepsFiles(g: map<CmdType, seq<Group>>, cmds: seq<SrcCmd>, c: SrcCmd)
    requires DistinctTemplates(g) && FilesMatch(g, cmds) && Covered(g, cmds)
    ensures FilesMatch(AddToGroups(g, c), cmds + [c])
  {
    var g': map<CmdType, seq<Group>> := AddToGroups(g, c);
    var gs := GroupsOf(g, c.kind);
    var k := FindTemplate(gs, TemplateOf(c));
    AddToListFacts(gs, c);
    forall t: CmdType, i: int | t in g' && 0 <= i < |g'[t]|
      ensures g'[t][i].files == FilesFor(cmds + [c], t, GroupTemplate(g'[t][i]))
    {
      var tpl := GroupTemplate(g'[t][i]);
      FilesForSnoc(cmds, c, t, tpl);
      if t == c.kind && i == |gs| {
        assert forall d :: d in cmds ==> !(d.kind == t && TemplateOf(d) == tpl);
        FilesForNone(cmds, t, tpl);
      } else if t == c.kind && i != k {
        assert tpl == GroupTemplate(gs[i]);
      }
    }
  }

  lemma AddKeepsOrigins(g: map<CmdType, seq<Group>>, cmds: seq<SrcCmd>, c: SrcCmd)
    requires FromCommands(g, cmds)
    ensures FromCommands(AddToGroups(g, c), cmds + [c])
  {
    var g': map<CmdType, seq<Group>> := AddToGroups(g, c);
    var gs := GroupsOf(g, c.kind);
    var k := FindTemplate(gs, TemplateOf(c));
    AddToListFacts(gs, c);
    forall t: CmdType, i: int | t in g' && 0 <= i < |g'[t]|
      ensures HasOrigin(cmds + [c], t, g'[t][i])
    {
      if t == c.kind && i == |gs| {
        assert k == |gs| && g'[t] == AddToList(gs, c);
        assert g'[t][i] == Group(c.prefix, c.suffix, [c.file]);
        assert c in cmds + [c];
      } else {
        assert t in g && i < |g[t]|;
        assert g'[t][i].prefix == g[t][i].prefix && g'[t][i].suffix == g[t][i].suffix;
        var d :| d in cmds && d.kind == t && d.prefix == g[t][i].prefix && d.suffix == g[t][i].suffix;
        assert d in cmds + [c];
      }
    }
  }

  lemma AddKeepsCovered(g: map<CmdType, seq<Group>>, cmds: seq<SrcCmd>, c: SrcCmd)
    requires Covered(g, cmds)
    ensures Covered(AddToGroups(g, c), cmds + [c])
  {
    var g': map<CmdType, seq<Group>> := AddToGroups(g, c);
    var gs := GroupsOf(g, c.kind);
    var k := FindTemplate(gs, TemplateOf(c));
    AddToListFacts(gs, c);
    forall d: SrcCmd | d in cmds + [c]
      ensures d.kind in g' && HasEntry(g'[d.kind], TemplateOf(d))
    {
      if d == c {
        assert GroupTemplate(g'[d.kind][k]) == TemplateOf(d);
      } else {
        var i :| 0 <= i < |g[d.kind]| && GroupTemplate(g[d.kind][i]) == TemplateOf(d);
        assert GroupTemplate(g'[d.kind][i]) == TemplateOf(d);
      }
    }
  }

  lemma AddKeeps(g: map<CmdType, seq<Group>>, cmds: seq<SrcCmd>, c: SrcCmd)
    requires GroupsFor(g, cmds)
    ensures GroupsFor(AddToGroups(g, c), cmds + [c])
  {
    AddKeepsKeys(g, cmds, c);
    AddKeepsDistinct(g, c);
    AddKeepsFiles(g, cmds, c);
    AddKeepsOrigins(g, cmds, c);
    AddKeepsCovered(g, cmds, c);
  }

  lemma {:induction false} FoldKeeps(g: map<CmdType, seq<Group>>, pre: seq<SrcCmd>, rest: seq<SrcCmd>)
    requires GroupsFor(g, pre)
    ensures GroupsFor(Fold(g, rest), pre + rest)
    decreases |rest|
  {
    if rest == [] {
      assert pre + rest == pre;
    } else {
      var g' := AddToGroups(g, rest[0]);
      var pre' := pre + [rest[0]];
      assert pre' + rest[1..] == pre + rest;
      assert Fold(g, rest) == Fold(g', rest[1..]);
      AddKeeps(g, pre, rest[0]);
      FoldKeeps(g', pre', rest[1..]);
    }
  }

  /** Grouping a command list from scratch yields its grouping. */
  lemma Grouping(cmds: seq<SrcCmd>)
    ensures GroupsFor(Fold(map[], cmds), cmds)
  {
    assert Kinds([]) == {};
    FoldKeeps(map[], [], cmds);
    assert [] + cmds == cmds;
  }

  // ---------------------------------------------------------------------
  // The loops in closed form

  /** In turbo mode the inner loop only groups. */
  lemma {:induction false} PlaceTurbo(cmds: seq<SrcCmd>, j: nat, st: SrcState)
    requires j <= |cmds|
    ensures Place(true, cmds, j, st) == (st.(groups := Fold(st.groups, cmds[j..])), Ok(()))
    decreases |cmds| - j
  {
    if j == |cmds| {
      assert cmds[j..] == [];
    } else {
      assert cmds[j..][0] == cmds[j] && cmds[j..][1..] == cmds[j + 1..];
      PlaceTurbo(cmds, j + 1, st.(groups := AddToGroups(st.groups, cmds[j])));
    }
  }

  /** Commands written one by one, each template with its file in place of
      `$files`. */
  function Expanded(cmds: seq<SrcCmd>): seq<string> {
    if cmds == [] then [] else [cmds[0].prefix + cmds[0].file + cmds[0].suffix] + Expanded(cmds[1..])
  }

  lemma {:induction false} ExpandedAppend(a: seq<SrcCmd>, b: seq<SrcCmd>)
    ensures Expanded(a + b) == Expanded(a) + Expanded(b)
  {
    if a == [] {
      assert a + b == b;
    } else {
      assert (a + b)[0] == a[0];
      assert (a + b)[1..] == a[1..] + b;
      ExpandedAppend(a[1..], b);
    }
  }

  /** Otherwise the inner loop writes each clean command at once. */
  lemma {:induction false} PlaceImmediate(cmds: seq<SrcCmd>, j: nat, st: SrcState)
    requires j <= |cmds|
    requires forall c :: c in cmds ==> CleanCmd(c)
    ensures Place(false, cmds, j, st) == (st.(out := st.out + Expanded(cmds[j..])), Ok(()))
    decreases |cmds| - j
  {
    if j == |cmds| {
      assert cmds[j..] == [];
      assert st.out + [] == st.out;
    } else {
      var c := cmds[j];
      var line := c.prefix + c.file + c.suffix;
      assert c in cmds;
      Fill(c.prefix, c.suffix, c.file);
      PlaceImmediate(cmds, j + 1, st.(out := st.out + [line]));
      assert cmds[j..][0] == c && cmds[j..][1..] == cmds[j + 1..];
      assert st.out + [line] + Expanded(cmds[j + 1..]) == st.out + Expanded(cmds[j..]);
    }
  }

  lemma SrcStepTurbo(src: SrcItem, st: SrcState)
    ensures SrcStep(true, src, st) == (SrcState(st.out, st.ipNames + IpName(src), Fold(st.groups, SrcCommands(src))), Ok(()))
  {
    var cmds := SrcCommands(src);
    PlaceTurbo(cmds, 0, st.(ipNames := st.ipNames + IpName(src)));
    assert cmds[0..] == cmds;
  }

  lemma SrcStepImmediate(src: SrcItem, st: SrcState)
    requires LibClean(src)
    ensures SrcStep(false, src, st) == (SrcState(st.out + Expanded(SrcCommands(src)), st.ipNames + IpName(src), st.groups), Ok(()))
  {
    var cmds := SrcCommands(src);
    SrcCommandsClean(src);
    assert forall c :: c in cmds ==> CleanCmd(c);
    PlaceImmediate(cmds, 0, st.(ipNames := st.ipNames + IpName(src)));
    assert cmds[0..] == cmds;
  }

  lemma NamesFrom(pre: seq<string>, srcs: seq<SrcItem>, i: nat)
    requires i < |srcs|
    ensures pre + IpName(srcs[i]) + AllIpNames(srcs[i + 1..]) == pre + AllIpNames(srcs[i..])
  {
    AllCommandsFrom(srcs, i);
    SeqAssoc(pre, IpName(srcs[i]), AllIpNames(srcs[i + 1..]));
  }

  lemma SeqAssoc(a: seq<string>, b: seq<string>, c: seq<string>)
    ensures a + b + c == a + (b + c)
  {
  }

  lemma GroupsFrom(g: map<CmdType, seq<Group>>, srcs: seq<SrcItem>, i: nat)
    requires i < |srcs|
    ensures Fold(Fold(g, SrcCommands(srcs[i])), AllCommands(srcs[i + 1..])) == Fold(g, AllCommands(srcs[i..]))
  {
    AllCommandsFrom(srcs, i);
    FoldAppend(g, SrcCommands(srcs[i]), AllCommands(srcs[i + 1..]));
  }

  lemma {:induction false} SrcLoopTurbo(srcs: seq<SrcItem>, i: nat, st: SrcState)
    requires i <= |srcs|
    ensures SrcLoop(true, srcs, i, st)
         == (SrcState(st.out, st.ipNames + AllIpNames(srcs[i..]), Fold(st.groups, AllCommands(srcs[i..]))), Ok(()))
    decreases |srcs| - i
  {
    if i == |srcs| {
      assert srcs[i..] == [];
      assert st.ipNames + [] == st.ipNames;
    } else {
      SrcStepTurbo(srcs[i], st);
      SrcLoopTurbo(srcs, i + 1, SrcStep(true, srcs[i], st).0);
      NamesFrom(st.ipNames, srcs, i);
      GroupsFrom(st.groups, srcs, i);
    }
  }

  lemma OutFrom(out: seq<string>, srcs: seq<SrcItem>, i: nat)
    requires i < |srcs|
    ensures out + Expanded(SrcCommands(srcs[i])) + Expanded(AllCommands(srcs[i + 1..])) == out + Expanded(AllCommands(srcs[i..]))
  {
    AllCommandsFrom(srcs, i);
    ExpandedJoin(out, SrcCommands(srcs[i]), AllCommands(srcs[i + 1..]));
  }

  lemma ExpandedJoin(out: seq<string>, a: seq<SrcCmd>, b: seq<SrcCmd>)
    ensures out + Expanded(a) + Expanded(b) == out + Expanded(a + b)
  {
    ExpandedAppend(a, b);
  }

  lemma {:induction false} SrcLoopImmediate(srcs: seq<SrcItem>, i: nat, st: SrcState)
    requires i <= |srcs|
    requires forall k :: i <= k < |srcs| ==> LibClean(srcs[k])
    ensures SrcLoop(false, srcs, i, st)
         == (SrcState(st.out + Expanded(AllCommands(srcs[i..])), st.ipNames + AllIpNames(srcs[i..]), st.groups), Ok(()))
    decreases |srcs| - i
  {
    if i == |srcs| {
      assert srcs[i..] == [];
      assert st.ipNames + [] == st.ipNames && st.out + [] == st.out;
    } else {
      SrcStepImmediate(srcs[i], st);
      SrcLoopImmediate(srcs, i + 1, SrcStep(false, srcs[i], st).0);
      NamesFrom(st.ipNames, srcs, i);
      OutFrom(st.out, srcs, i);
    }
  }

  /** The lines of the entries of one group type: each template with the
      entry's files, separated by spaces, in place of `$files`. */
  function GroupLines(gs: seq<Group>): seq<string> {
    if gs == [] then [] else [gs[0].prefix + Text.JoinWith(gs[0].files, " ") + gs[0].suffix] + GroupLines(gs[1..])
  }

  /** The turbo-mode lines: IP imports, then file additions, then properties. */
  function TurboLines(g: map<CmdType, seq<Group>>): seq<string> {
    GroupLines(GroupsOf(g, Ip)) + GroupLines(GroupsOf(g, Add)) + GroupLines(GroupsOf(g, Prop))
  }

  predicate CleanGroups(gs: seq<Group>) {
    forall grp :: grp in gs ==> Clean(grp.prefix, grp.suffix)
  }

  lemma {:induction false} EmitGroupsClean(gs: seq<Group>, j: nat, out: seq<string>)
    requires j <= |gs| && CleanGroups(gs)
    ensures EmitGroups(gs, j, out) == (out + GroupLines(gs[j..]), Ok(()))
    decreases |gs| - j
  {
    if j == |gs| {
      assert gs[j..] == [];
      assert out + [] == out;
    } else {
      var grp := gs[j];
      var line := grp.prefix + Text.JoinWith(grp.files, " ") + grp.suffix;
      Fill(grp.prefix, grp.suffix, Text.JoinWith(grp.files, " "));
      EmitGroupsClean(gs, j + 1, out + [line]);
      assert gs[j..][0] == grp && gs[j..][1..] == gs[j + 1..];
      assert out + [line] + GroupLines(gs[j + 1..]) == out + GroupLines(gs[j..]);
    }
  }

  lemma EmitTypesClean(g: map<CmdType, seq<Group>>, out: seq<string>)
    requires forall t :: t in g ==> CleanGroups(g[t])
    ensures EmitTypes(g, 0, out) == (out + TurboLines(g), Ok(()))
  {
    assert CmdTypes[0] == Ip && CmdTypes[1] == Add && CmdTypes[2] == Prop && |CmdTypes| == 3;
    var o1 := out + GroupLines(GroupsOf(g, Ip));
    var o2 := o1 + GroupLines(GroupsOf(g, Add));
    var o3 := o2 + GroupLines(GroupsOf(g, Prop));
    EmitTypeClean(g, 0, out);
    EmitTypeClean(g, 1, o1);
    EmitTypeClean(g, 2, o2);
    assert EmitTypes(g, 0, out) == EmitTypes(g, 3, o3);
    assert EmitTypes(g, 3, o3) == (o3, Ok(()));
    TurboLinesSplit(g, out);
  }

  lemma TurboLinesSplit(g: map<CmdType, seq<Group>>, out: seq<string>)
    ensures out + GroupLines(GroupsOf(g, Ip)) + GroupLines(GroupsOf(g, Add)) + GroupLines(GroupsOf(g, Prop))
         == out + TurboLines(g)
  {
    var a, b, c := GroupLines(GroupsOf(g, Ip)), GroupLines(GroupsOf(g, Add)), GroupLines(GroupsOf(g, Prop));
    SeqAssoc(out + a, b, c);
    SeqAssoc(out, a, b + c);
    SeqAssoc(a, b, c);
  }

  /** One pass of the loop over the group types. */
  lemma EmitTypeClean(g: map<CmdType, seq<Group>>, i: nat, out: seq<string>)
    requires i < |CmdTypes|
    requires forall t :: t in g ==> CleanGroups(g[t])
    ensures EmitTypes(g, i, out) == EmitTypes(g, i + 1, out + GroupLines(GroupsOf(g, CmdTypes[i])))
  {
    var gs := GroupsOf(g, CmdTypes[i]);
    EmitGroupsClean(gs, 0, out);
    assert gs[0..] == gs;
  }

  /** Every entry of a grouping of clean commands is clean. */
  lemma GroupsClean(g: map<CmdType, seq<Group>>, cmds: seq<SrcCmd>)
    requires FromCommands(g, cmds)
    requires forall c :: c in cmds ==> CleanCmd(c)
    ensures forall t :: t in g ==> CleanGroups(g[t])
  {
    forall t, grp | t in g && grp in g[t]
      ensures Clean(grp.prefix, grp.suffix)
    {
      var i :| 0 <= i < |g[t]| && g[t][i] == grp;
      assert HasOrigin(cmds, t, g[t][i]);
    }
  }

  // ---------------------------------------------------------------------
  // The script

  /** No library name holds a `$`. */
  predicate LibsClean(srcs: seq<SrcItem>) {
    forall k :: 0 <= k < |srcs| ==> LibClean(srcs[k])
  }

  /** The simulation top is tested by its truth value: a setting that is
      false, zero or empty writes the same top-level lines as no setting. */
  lemma SimTopFalsy(gen: Generator, host: Host, settings: Settings)
    requires "vivado.sim_top_entity" in settings && !Values.Truthy(settings["vivado.sim_top_entity"])
    ensures TopLines(gen, host, settings) == TopLines(gen, host, settings - {"vivado.sim_top_entity"})
  {
  }

  /** Any true value writes one more line, right after the design top:
      `str()` of the value set as the top of `sim_1`. */
  lemma SimTopTruthy(gen: Generator, host: Host, settings: Settings)
    requires "vivado.sim_top_entity" in settings && Values.Truthy(settings["vivado.sim_top_entity"])
    ensures var without := TopLines(gen, host, settings - {"vivado.sim_top_entity"});
      var lines := TopLines(gen, host, settings);
      && lines == without[..1] + ["set_property top " + Values.Str(settings["vivado.sim_top_entity"]) + " [get_filesets sim_1]"] + without[1..]
  {
  }

  /** A missing device setting is reported before anything is written. */
  lemma ScriptMissing(gen: Generator, host: Host, settings: Settings, cl: CommandList)
    requires !(Required <= settings.Keys)
    ensures Script(gen, host, settings, cl) == ([], Err(MissingSettings(Required - settings.Keys)))
    ensures Required - settings.Keys != {}
  {
    var name :| name in Required && name !in settings.Keys;
    assert name in Required - settings.Keys;
  }

  lemma TurboFromStart(srcs: seq<SrcItem>, out: seq<string>)
    ensures SrcLoop(true, srcs, 0, SrcState(out, [], map[]))
         == (SrcState(out, AllIpNames(srcs), Fold(map[], AllCommands(srcs))), Ok(()))
  {
    SrcLoopTurbo(srcs, 0, SrcState(out, [], map[]));
    assert srcs[0..] == srcs;
    assert [] + AllIpNames(srcs) == AllIpNames(srcs);
  }

  lemma ImmediateFromStart(srcs: seq<SrcItem>, out: seq<string>)
    requires LibsClean(srcs)
    ensures SrcLoop(false, srcs, 0, SrcState(out, [], map[]))
         == (SrcState(out + Expanded(AllCommands(srcs)), AllIpNames(srcs), map[]), Ok(()))
  {
    assert srcs[0..] == srcs;
    SrcLoopImmediate(srcs, 0, SrcState(out, [], map[]));
    assert [] + AllIpNames(srcs) == AllIpNames(srcs);
  }

  /** Without turbo mode each command is written as soon as its source is
      read: the header, every command of every source in order, then the
      top-level settings, the IP upgrades and runs, the final setup
      scripts and `close_project`. */
  lemma ScriptImmediate(gen: Generator, host: Host, settings: Settings, cl: CommandList)
    requires Required <= settings.Keys && !gen.turbo && LibsClean(cl.src)
    ensures Script(gen, host, settings, cl)
         == (Header(gen, host, settings, cl) + Expanded(AllCommands(cl.src))
             + Trailer(gen, host, settings, cl.setup, AllIpNames(cl.src)), Ok(()))
  {
    ImmediateFromStart(cl.src, Header(gen, host, settings, cl));
  }

  /** In turbo mode the commands are grouped by type and template, and one
      line per entry is written: all IP imports, then all file additions,
      then all property settings. */
  lemma ScriptTurbo(gen: Generator, host: Host, settings: Settings, cl: CommandList)
    requires Required <= settings.Keys && gen.turbo && LibsClean(cl.src)
    ensures GroupsFor(Fold(map[], AllCommands(cl.src)), AllCommands(cl.src))
    ensures Script(gen, host, settings, cl)
         == (Header(gen, host, settings, cl) + TurboLines(Fold(map[], AllCommands(cl.src)))
             + Trailer(gen, host, settings, cl.setup, AllIpNames(cl.src)), Ok(()))
  {
    TurboGroupsClean(cl.src);
    TurboFromStart(cl.src, Header(gen, host, settings, cl));
    EmitTypesClean(Fold(map[], AllCommands(cl.src)), Header(gen, host, settings, cl));
  }

  /** The grouping of the commands of clean sources is well formed and
      clean. */
  lemma TurboGroupsClean(srcs: seq<SrcItem>)
    requires LibsClean(srcs)
    ensures GroupsFor(Fold(map[], AllCommands(srcs)), AllCommands(srcs))
    ensures forall t :: t in Fold(map[], AllCommands(srcs)) ==> CleanGroups(Fold(map[], AllCommands(srcs))[t])
  {
    AllCommandsClean(srcs);
    Grouping(AllCommands(srcs));
    GroupsClean(Fold(map[], AllCommands(srcs)), AllCommands(srcs));
  }

  // ---------------------------------------------------------------------
  // What has been written stays written

  /** The source-loop steps only add lines, and fail only on a template. */
  lemma {:induction false} PlaceProgress(turbo: bool, cmds: seq<SrcCmd>, j: nat, st: SrcState)
    requires j <= |cmds|
    ensures st.out <= Place(turbo, cmds, j, st).0.out
    ensures Place(turbo, cmds, j, st).1.Err? ==> Place(turbo, cmds, j, st).1.error.Substitution?
    decreases |cmds| - j
  {
    if j < |cmds| {
      if turbo {
        PlaceProgress(turbo, cmds, j + 1, st.(groups := AddToGroups(st.groups, cmds[j])));
      } else {
        match Template.Substitute(TemplateOf(cmds[j]), FilesArg(cmds[j].file))
        case Err(_) =>
        case Ok(line) =>
          PlaceProgress(turbo, cmds, j + 1, st.(out := st.out + [line]));
          PrefixTrans(st.out, st.out + [line], Place(turbo, cmds, j, st).0.out);
      }
    }
  }

  lemma PrefixTrans(a: seq<string>, b: seq<string>, c: seq<string>)
    requires a <= b && b <= c
    ensures a <= c
  {
    assert c[..|a|] == b[..|a|];
  }

  lemma SrcStepProgress(turbo: bool, src: SrcItem, st: SrcState)
    ensures st.out <= SrcStep(turbo, src, st).0.out
    ensures SrcStep(turbo, src, st).1.Err? ==> SrcStep(turbo, src, st).1.error.Substitution?
  {
    PlaceProgress(turbo, SrcCommands(src), 0, st.(ipNames := st.ipNames + IpName(src)));
  }

  lemma {:induction false} SrcLoopProgress(turbo: bool, srcs: seq<SrcItem>, i: nat, st: SrcState)
    requires i <= |srcs|
    ensures st.out <= SrcLoop(turbo, srcs, i, st).0.out
    ensures SrcLoop(turbo, srcs, i, st).1.Err? ==> SrcLoop(turbo, srcs, i, st).1.error.Substitution?
    decreases |srcs| - i
  {
    if i < |srcs| {
      var p := SrcStep(turbo, srcs[i], st);
      SrcStepProgress(turbo, srcs[i], st);
      if p.1.Ok? {
        SrcLoopProgress(turbo, srcs, i + 1, p.0);
        PrefixTrans(st.out, p.0.out, SrcLoop(turbo, srcs, i, st).0.out);
      }
    }
  }

  lemma {:induction false} EmitGroupsProgress(gs: seq<Group>, j: nat, out: seq<string>)
    requires j <= |gs|
    ensures out <= EmitGroups(gs, j, out).0
    ensures EmitGroups(gs, j, out).1.Err? ==> EmitGroups(gs, j, out).1.error.Substitution?
    decreases |gs| - j
  {
    if j < |gs| {
      match Template.Substitute(GroupTemplate(gs[j]), FilesArg(Text.JoinWith(gs[j].files, " ")))
      case Err(_) =>
      case Ok(line) =>
        EmitGroupsProgress(gs, j + 1, out + [line]);
        PrefixTrans(out, out + [line], EmitGroups(gs, j, out).0);
    }
  }

  lemma {:induction false} EmitTypesProgress(g: map<CmdType, seq<Group>>, i: nat, out: seq<string>)
    requires i <= |CmdTypes|
    ensures out <= EmitTypes(g, i, out).0
    ensures EmitTypes(g, i, out).1.Err? ==> EmitTypes(g, i, out).1.error.Substitution?
    decreases |CmdTypes| - i
  {
    if i < |CmdTypes| {
      var e := EmitGroups(GroupsOf(g, CmdTypes[i]), 0, out);
      EmitGroupsProgress(GroupsOf(g, CmdTypes[i]), 0, out);
      if e.1.Ok? {
        EmitTypesProgress(g, i + 1, e.0);
        PrefixTrans(out, e.0, EmitTypes(g, i, out).0);
      }
    }
  }

  /** Once the settings are complete the header is written, and it stays
      in the output whether or not a later template fails; such a failure
      is a substitution error. */
  lemma ScriptKeepsHeader(gen: Generator, host: Host, settings: Settings, cl: CommandList)
    requires Required <= settings.Keys
    ensures Header(gen, host, settings, cl) <= Script(gen, host, settings, cl).0
    ensures Script(gen, host, settings, cl).1.Err? ==> Script(gen, host, settings, cl).1.error.Substitution?
  {
    var h := Header(gen, host, settings, cl);
    var s := SrcLoop(gen.turbo, cl.src, 0, SrcState(h, [], map[]));
    SrcLoopProgress(gen.turbo, cl.src, 0, SrcState(h, [], map[]));
    if s.1.Ok? {
      var e := if gen.turbo then EmitTypes(s.0.groups, 0, s.0.out) else (s.0.out, Ok(()));
      if gen.turbo {
        EmitTypesProgress(s.0.groups, 0, s.0.out);
      }
      PrefixTrans(h, s.0.out, e.0);
      if e.1.Ok? {
        PrefixTrans(h, e.0, Script(gen, host, settings, cl).0);
      }
    }
  }

  /** The script fails only on a missing device setting, before anything is
      written, or on a `$` in a library name, which is copied into a
      template. */
  lemma ScriptErrors(gen: Generator, host: Host, settings: Settings, cl: CommandList)
    ensures Script(gen, host, settings, cl).1.Err? ==> !(Required <= settings.Keys) || !LibsClean(cl.src)
    ensures Script(gen, host, settings, cl).1 == Err(MissingSettings(Required - settings.Keys))
        <==> !(Required <= settings.Keys)
  {
    if Required <= settings.Keys {
      ScriptKeepsHeader(gen, host, settings, cl);
      if LibsClean(cl.src) {
        if gen.turbo {
          ScriptTurbo(gen, host, settings, cl);
        } else {
          ScriptImmediate(gen, host, settings, cl);
        }
      }
    }
  }
}
