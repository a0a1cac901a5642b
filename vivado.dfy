/** The Vivado project generator (`VivadoProjectGenerator`): the fileset a
    source file belongs to, and the Tcl script `write` emits, line by line,
    for a resolved command list. The output callback is modelled as the
    sequence of lines it receives; the clock, `os.path.abspath` and the
    default top entity are parameters (`Host`). */
module Vivado {
  import opened Wrappers
  import Text
  import Template
  import Values

  /** A `src` command as the generator reads it. */
  datatype SrcItem = SrcItem(filepath: string, useInSynth: bool, useInSim: bool, vhdl2008: bool, lib: Option<string>)

  /** A `setup` command: a Tcl script sourced before the sources, or after
      the IP runs when `finalize` is set. */
  datatype SetupItem = SetupItem(filepath: string, finalize: bool)

  /** The command list, one sequence per directive the generator reads;
      `util` and `iprepo` commands are seen only through their paths. */
  datatype CommandList = CommandList(setup: seq<SetupItem>, util: seq<string>, src: seq<SrcItem>, iprepo: seq<string>)

  datatype ProjInfo = ProjInfo(name: string, path: string)

  /** What `write` takes from its host: the `%c` rendering of the current
      time, `os.path.abspath`, and `kTopEntity`. */
  datatype Host = Host(clock: string, abspath: string -> string, topDefault: string)

  /** The fields of a generator (`__init__`). */
  datatype Generator = Generator(projInfo: ProjInfo, ipCachePath: Option<string>, turbo: bool)

  /** The parser's variable table as `write` receives it: values of any
      Python type, written through `str()` and tested by their truth value. */
  type Settings = map<string, Values.Value>

  /** The exceptions `write` raises: the `RuntimeError` for missing device
      settings (with the names missing), and the error of a template
      substitution. */
  datatype Fault = MissingSettings(names: set<string>) | Substitution(error: Template.TemplateError)

  /** `bool(x)` for an optional string. */
  predicate Truthy(o: Option<string>) {
    o.Some? && o.value != ""
  }

  predicate IsIpExt(ext: string) {
    ext == ".xci" || ext == ".xcix"
  }

  predicate IsConstraintExt(ext: string) {
    ext == ".xdc" || ext == ".tcl"
  }

  predicate IsDesignExt(ext: string) {
    ext in [".vhd", ".vhdl", ".v", ".vh", ".sv", ".ngc", ".edn", ".edf", ".mem", ".mif"]
  }

  /** `fileset`: the fileset a source goes to, chosen by the extension of
      its path; None when no rule applies. */
  function FileSet(src: SrcItem): Option<string> {
    var ext := Text.SplitExt(src.filepath).1;
    if IsIpExt(ext) then Some("sources_1")
    else if IsConstraintExt(ext) then Some("constrs_1")
    else if IsDesignExt(ext) then
      if src.useInSynth then Some("sources_1")
      else if src.useInSim then Some("sim_1")
      else None
    else None
  }

  /** A fileset as an f-string prints it. */
  function FileSetText(o: Option<string>): string {
    if o.Some? then o.value else "None"
  }

  /** The group type `t` of a command: `'ip'`, `'add'` or `'prop'`. */
  datatype CmdType = Ip | Add | Prop

  /** One `(t, c, f)` triple of `lCommands`: its group type, the template
      `c` (which is `prefix + "$files" + suffix`) and the file. */
  datatype SrcCmd = SrcCmd(kind: CmdType, prefix: string, suffix: string, file: string)

  /** The one placeholder name of the source templates. */
  const FilesKey := "files"

  function TemplateOf(c: SrcCmd): string {
    c.prefix + "$" + FilesKey + c.suffix
  }

  /** The extension of the last path component (`splitext(split(p)[1])`). */
  function BaseExt(src: SrcItem): string {
    Text.SplitExt(Text.Basename(src.filepath)).1
  }

  const FileTypeVhdl2008 := "set_property FILE_TYPE {VHDL 2008}"
  const UsedInImplementation := "set_property USED_IN implementation"
  const GetFilesOpen := " [get_files {"

  /** The commands one source produces: an IP import, or an `add_files`
      followed by its property settings. */
  function SrcCommands(src: SrcItem): seq<SrcCmd> {
    if IsIpExt(BaseExt(src)) then [ImportCommand(src)] else [AddCommand(src)] + PropCommands(src)
  }

  function ImportCommand(src: SrcItem): SrcCmd {
    SrcCmd(Ip, "import_files -norecurse -fileset " + FileSetText(FileSet(src)) + " ", "", src.filepath)
  }

  function AddCommand(src: SrcItem): SrcCmd {
    SrcCmd(Add, "add_files -norecurse -fileset " + FileSetText(FileSet(src)) + " ", "", src.filepath)
  }

  /** The property commands of a source that is not an IP core: the
      VHDL-2008 file type, the use of a Tcl script in implementation only,
      and the library, each when it applies. */
  function PropCommands(src: SrcItem): seq<SrcCmd> {
    Vhdl2008Command(src) + TclCommand(src) + LibraryCommand(src)
  }

  function Vhdl2008Command(src: SrcItem): seq<SrcCmd> {
    var ext := BaseExt(src);
    if (ext == ".vhd" || ext == ".vhdl") && src.vhdl2008
    then [SrcCmd(Prop, FileTypeVhdl2008 + GetFilesOpen, "}]", src.filepath)] else []
  }

  function TclCommand(src: SrcItem): seq<SrcCmd> {
    if BaseExt(src) == ".tcl" then [SrcCmd(Prop, UsedInImplementation + GetFilesOpen, "}]", src.filepath)] else []
  }

  function LibraryCommand(src: SrcItem): seq<SrcCmd> {
    if Truthy(src.lib)
    then [SrcCmd(Prop, "set_property library " + src.lib.value + " [ get_files {", "} ]", src.filepath)] else []
  }

  /** The root of the last path component (`splitext(split(p)[1])`). */
  function BaseRoot(src: SrcItem): string {
    Text.SplitExt(Text.Basename(src.filepath)).0
  }

  /** The IP name a source adds to `lIPNames`. */
  function IpName(src: SrcItem): seq<string> {
    if IsIpExt(BaseExt(src)) then [BaseRoot(src)] else []
  }

  /** The keyword argument of `substitute(files=...)`. */
  function FilesArg(x: string): map<string, string> {
    map[FilesKey := x]
  }

  /** One entry of the ordered dictionary of a group type: a template and
      the files collected for it. The template is kept as the prefix and
      suffix around `$files` of the command that created the entry. */
  datatype Group = Group(prefix: string, suffix: string, files: seq<string>)

  function GroupTemplate(g: Group): string {
    g.prefix + "$" + FilesKey + g.suffix
  }

  /** Where the entry for template `c` sits in `gs`; `|gs|` when absent. */
  function FindTemplate(gs: seq<Group>, c: string): (k: nat)
    ensures k <= |gs|
    ensures k < |gs| ==> GroupTemplate(gs[k]) == c
    ensures k == |gs| ==> forall i :: 0 <= i < |gs| ==> GroupTemplate(gs[i]) != c
  {
    if gs == [] then 0
    else if GroupTemplate(gs[0]) == c then 0
    else 1 + FindTemplate(gs[1..], c)
  }

  /** `d.setdefault(c, []).append(f)` on an ordered dictionary. */
  function AddToList(gs: seq<Group>, cmd: SrcCmd): seq<Group> {
    var k := FindTemplate(gs, TemplateOf(cmd));
    if k < |gs| then gs[k := gs[k].(files := gs[k].files + [cmd.file])]
    else gs + [Group(cmd.prefix, cmd.suffix, [cmd.file])]
  }

  /** The entries of group type `t` (`groups.get(t, {})`). */
  function GroupsOf(groups: map<CmdType, seq<Group>>, t: CmdType): seq<Group> {
    if t in groups then groups[t] else []
  }

  /** `lSrcCommandGroups.setdefault(t, OrderedDict()).setdefault(c, []).append(f)`. */
  function AddToGroups(groups: map<CmdType, seq<Group>>, cmd: SrcCmd): map<CmdType, seq<Group>> {
    groups[cmd.kind := AddToList(GroupsOf(groups, cmd.kind), cmd)]
  }

  /** The local state of the source loop: the lines written, `lIPNames`
      and `lSrcCommandGroups`. */
  datatype SrcState = SrcState(out: seq<string>, ipNames: seq<string>, groups: map<CmdType, seq<Group>>)

  /** The inner loop over `lCommands` from its `j`-th entry: group it in
      turbo mode, otherwise write it at once. */
  function Place(turbo: bool, cmds: seq<SrcCmd>, j: nat, st: SrcState): (SrcState, Result<(), Fault>)
    requires j <= |cmds|
    decreases |cmds| - j
  {
    if j == |cmds| then (st, Ok(()))
    else if turbo then Place(turbo, cmds, j + 1, st.(groups := AddToGroups(st.groups, cmds[j])))
    else
      match Template.Substitute(TemplateOf(cmds[j]), FilesArg(cmds[j].file))
      case Err(e) => (st, Err(Substitution(e)))
      case Ok(line) => Place(turbo, cmds, j + 1, st.(out := st.out + [line]))
  }

  /** The loop over `lSrcs` from its `i`-th source. */
  function SrcLoop(turbo: bool, srcs: seq<SrcItem>, i: nat, st: SrcState): (SrcState, Result<(), Fault>)
    requires i <= |srcs|
    decreases |srcs| - i
  {
    if i == |srcs| then (st, Ok(()))
    else
      var p := SrcStep(turbo, srcs[i], st);
      if p.1.Err? then p else SrcLoop(turbo, srcs, i + 1, p.0)
  }

  /** One pass of the loop over the sources: note the IP name, then place
      the source's commands. */
  function SrcStep(turbo: bool, src: SrcItem, st: SrcState): (SrcState, Result<(), Fault>) {
    Place(turbo, SrcCommands(src), 0, st.(ipNames := st.ipNames + IpName(src)))
  }

  const CmdTypes: seq<CmdType> := [Ip, Add, Prop]

  /** Writing the entries of one group type from the `j`-th on. */
  function EmitGroups(gs: seq<Group>, j: nat, out: seq<string>): (seq<string>, Result<(), Fault>)
    requires j <= |gs|
    decreases |gs| - j
  {
    if j == |gs| then (out, Ok(()))
    else
      match Template.Substitute(GroupTemplate(gs[j]), FilesArg(Text.JoinWith(gs[j].files, " ")))
      case Err(e) => (out, Err(Substitution(e)))
      case Ok(line) => EmitGroups(gs, j + 1, out + [line])
  }

  /** Writing the groups of the types in `CmdTypes` from the `i`-th on. */
  function EmitTypes(groups: map<CmdType, seq<Group>>, i: nat, out: seq<string>): (seq<string>, Result<(), Fault>)
    requires i <= |CmdTypes|
    decreases |CmdTypes| - i
  {
    if i == |CmdTypes| then (out, Ok(()))
    else
      var e := EmitGroups(GroupsOf(groups, CmdTypes[i]), 0, out);
      if e.1.Err? then e else EmitTypes(groups, i + 1, e.0)
  }

  /** `prefix + x + suffix` for each `x`, in order. */
  function MapLines(prefix: string, xs: seq<string>, suffix: string): seq<string> {
    if xs == [] then []
    else MapLines(prefix, xs[..|xs| - 1], suffix) + [prefix + xs[|xs| - 1] + suffix]
  }

  /** A `source` line for each setup whose `finalize` flag is `fin`. */
  function SetupLines(ss: seq<SetupItem>, fin: bool): seq<string> {
    if ss == [] then []
    else
      var s := ss[|ss| - 1];
      SetupLines(ss[..|ss| - 1], fin) + (if s.finalize == fin then ["source " + s.filepath] else [])
  }

  /** The three run commands of each IP. */
  function IpRunLines(names: seq<string>): seq<string> {
    if names == [] then []
    else
      var n := names[|names| - 1];
      IpRunLines(names[..|names| - 1])
      + ["delete_ip_run [get_ips " + n + "]", "generate_target all [get_ips " + n + "]",
         "create_ip_run [get_ips " + n + "]"]
  }

  /** `os.path.join(a, b)` (POSIX). */
  function JoinPath(a: string, b: string): string {
    if b != [] && b[0] == '/' then b
    else if a == [] || a[|a| - 1] == '/' then a + b
    else a + "/" + b
  }

  const Required: set<string> := {"device_name", "device_package", "device_speed"}

  /** The Xilinx part: name, package and speed grade run together. */
  function Part(settings: Settings): string
    requires Required <= settings.Keys
  {
    Values.Str(settings["device_name"]) + Values.Str(settings["device_package"]) + Values.Str(settings["device_speed"])
  }

  function CreateLine(gen: Generator, host: Host, settings: Settings): string
    requires Required <= settings.Keys
  {
    "create_project " + gen.projInfo.name + " " + host.abspath(JoinPath(gen.projInfo.path, gen.projInfo.name))
    + " -part " + Part(settings) + " -force"
  }

  const Banner := "# Autogenerated project build script"
  const IfConstrs := "if {[string equal [get_filesets -quiet constrs_1] \"\"]} {create_fileset -constrset constrs_1}"
  const IfSources := "if {[string equal [get_filesets -quiet sources_1] \"\"]} {create_fileset -srcset sources_1}"

  /** The board lines, each present when its setting is. */
  function BoardLines(settings: Settings): seq<string> {
    (if "board_part" in settings
     then ["set_property -name \"board_part\" -value \"" + Values.Str(settings["board_part"]) + "\" -objects [current_project]"]
     else [])
    + (if "dsa_board_id" in settings
       then ["set_property -name \"dsa.board_id\" -value \"" + Values.Str(settings["dsa_board_id"]) + "\" -objects [current_project]"]
       else [])
  }

  /** Everything written before the sources. */
  function Header(gen: Generator, host: Host, settings: Settings, cl: CommandList): seq<string>
    requires Required <= settings.Keys
  {
    [Banner, "# " + host.clock, "", CreateLine(gen, host, settings)]
    + BoardLines(settings)
    + ["set_property ip_repo_paths {" + Text.JoinWith(cl.iprepo, " ") + "} [current_project]"]
    + MapLines("add_files -norecurse -fileset utils_1 ", cl.util, "")
    + [IfConstrs, IfSources]
    + SetupLines(cl.setup, false)
  }

  /** `aSettings.get('top_entity', kTopEntity)`. */
  function TopEntity(host: Host, settings: Settings): string {
    if "top_entity" in settings then Values.Str(settings["top_entity"]) else host.topDefault
  }

  /** The simulation top entity, when `aSettings.get('vivado.sim_top_entity')`
      is a true value: absent, `None`-like, empty or false settings give none. */
  function SimTop(settings: Settings): Option<string> {
    if "vivado.sim_top_entity" in settings && Values.Truthy(settings["vivado.sim_top_entity"])
    then Some(Values.Str(settings["vivado.sim_top_entity"]))
    else None
  }

  /** The top-level and IP-cache lines. */
  function TopLines(gen: Generator, host: Host, settings: Settings): seq<string> {
    ["set_property top " + TopEntity(host, settings) + " [get_filesets sources_1]"]
    + (if SimTop(settings).Some? then ["set_property top " + SimTop(settings).value + " [get_filesets sim_1]"] else [])
    + (if Truthy(gen.ipCachePath)
       then ["config_ip_cache -import_from_project -use_cache_location " + host.abspath(gen.ipCachePath.value)]
       else [])
  }

  /** Everything written after the sources. */
  function Trailer(gen: Generator, host: Host, settings: Settings, setups: seq<SetupItem>, ipNames: seq<string>): seq<string> {
    TopLines(gen, host, settings)
    + MapLines("upgrade_ip [get_ips ", ipNames, "]")
    + IpRunLines(ipNames)
    + SetupLines(setups, true)
    + ["close_project"]
  }

  /** What `write` sends to its output, and how it ends. */
  function Script(gen: Generator, host: Host, settings: Settings, cl: CommandList): (seq<string>, Result<(), Fault>) {
    if !(Required <= settings.Keys) then ([], Err(MissingSettings(Required - settings.Keys)))
    else
      var s := SrcLoop(gen.turbo, cl.src, 0, SrcState(Header(gen, host, settings, cl), [], map[]));
      if s.1.Err? then (s.0.out, s.1)
      else
        var e := if gen.turbo then EmitTypes(s.0.groups, 0, s.0.out) else (s.0.out, Ok(()));
        if e.1.Err? then e
        else (e.0 + Trailer(gen, host, settings, cl.setup, s.0.ipNames), Ok(()))
  }

  /** `VivadoProjectGenerator`. Its fields are set once, by the constructor. */
  class VivadoProjectGenerator {
    const projInfo: ProjInfo
    const ipCachePath: Option<string>
    const turbo: bool

    constructor (projInfo: ProjInfo, ipCachePath: Option<string>, turbo: bool)
      ensures this.projInfo == projInfo && this.ipCachePath == ipCachePath && this.turbo == turbo
    {
      this.projInfo := projInfo;
      this.ipCachePath := ipCachePath;
      this.turbo := turbo;
    }

    function Config(): Generator {
      Generator(projInfo, ipCachePath, turbo)
    }

    /** `write`: the whole script, or the exception and what was written
        before it. */
    method Write(host: Host, settings: Settings, cl: CommandList) returns (out: seq<string>, r: Result<(), Fault>)
      ensures (out, r) == Script(Config(), host, settings, cl)
    {
      if !(Required <= settings.Keys) {
        return [], Err(MissingSettings(Required - settings.Keys));
      }
      out := WriteHeader(host, settings, cl);
      var ipNames, groups;
      out, ipNames, groups, r := WriteSources(out, cl.src);
      if r.Err? {
        return;
      }
      if turbo {
        out, r := WriteGroups(out, groups);
        if r.Err? {
          return;
        }
      }
      out := WriteTrailer(out, host, settings, cl.setup, ipNames);
      r := Ok(());
    }

    method WriteHeader(host: Host, settings: Settings, cl: CommandList) returns (out: seq<string>)
      requires Required <= settings.Keys
      ensures out == Header(Config(), host, settings, cl)
    {
      out := [Banner, "# " + host.clock, "", CreateLine(Config(), host, settings)];
      out := WriteBoard(out, settings);
      out := out + ["set_property ip_repo_paths {" + Text.JoinWith(cl.iprepo, " ") + "} [current_project]"];
      out := WriteLines(out, "add_files -norecurse -fileset utils_1 ", cl.util, "");
      out := out + [IfConstrs, IfSources];
      out := WriteSetups(out, cl.setup, false);
    }

    /** The board lines, each when its setting is present. */
    method WriteBoard(out0: seq<string>, settings: Settings) returns (out: seq<string>)
      ensures out == out0 + BoardLines(settings)
    {
      out := out0;
      if "board_part" in settings {
        out := out + ["set_property -name \"board_part\" -value \"" + Values.Str(settings["board_part"]) + "\" -objects [current_project]"];
      }
      if "dsa_board_id" in settings {
        out := out + ["set_property -name \"dsa.board_id\" -value \"" + Values.Str(settings["dsa_board_id"]) + "\" -objects [current_project]"];
      }
    }

    /** One line `prefix + x + suffix` for each `x` of `xs`. */
    method WriteLines(out0: seq<string>, prefix: string, xs: seq<string>, suffix: string) returns (out: seq<string>)
      ensures out == out0 + MapLines(prefix, xs, suffix)
    {
      out := out0;
      for k := 0 to |xs|
        invariant out == out0 + MapLines(prefix, xs[..k], suffix)
      {
        assert xs[..k + 1][..k] == xs[..k];
        out := out + [prefix + xs[k] + suffix];
      }
      assert xs[..|xs|] == xs;
    }

    /** A `source` line for each setup whose `finalize` flag is `fin`. */
    method WriteSetups(out0: seq<string>, ss: seq<SetupItem>, fin: bool) returns (out: seq<string>)
      ensures out == out0 + SetupLines(ss, fin)
    {
      out := out0;
      for k := 0 to |ss|
        invariant out == out0 + SetupLines(ss[..k], fin)
      {
        assert ss[..k + 1][..k] == ss[..k];
        if ss[k].finalize == fin {
          out := out + ["source " + ss[k].filepath];
        }
      }
      assert ss[..|ss|] == ss;
    }

    /** The loop over the sources. */
    method WriteSources(out0: seq<string>, srcs: seq<SrcItem>)
      returns (out: seq<string>, ipNames: seq<string>, groups: map<CmdType, seq<Group>>, r: Result<(), Fault>)
      ensures (SrcState(out, ipNames, groups), r) == SrcLoop(turbo, srcs, 0, SrcState(out0, [], map[]))
    {
      out, ipNames, groups := out0, [], map[];
      for i := 0 to |srcs|
        invariant SrcLoop(turbo, srcs, 0, SrcState(out0, [], map[])) == SrcLoop(turbo, srcs, i, SrcState(out, ipNames, groups))
      {
        out, ipNames, groups, r := WriteSource(srcs[i], out, ipNames, groups);
        if r.Err? {
          return;
        }
      }
      r := Ok(());
    }

    /** One pass of the loop over the sources. */
    method WriteSource(src: SrcItem, out0: seq<string>, ipNames0: seq<string>, groups0: map<CmdType, seq<Group>>)
      returns (out: seq<string>, ipNames: seq<string>, groups: map<CmdType, seq<Group>>, r: Result<(), Fault>)
      ensures (SrcState(out, ipNames, groups), r) == SrcStep(turbo, src, SrcState(out0, ipNames0, groups0))
    {
      ipNames := NoteIpName(ipNames0, src);
      out, groups, r := PlaceCommands(SrcCommands(src), out0, ipNames, groups0);
    }

    /** `lIPNames.append(name)` for an IP source. */
    method NoteIpName(names0: seq<string>, src: SrcItem) returns (names: seq<string>)
      ensures names == names0 + IpName(src)
    {
      names := names0;
      if IsIpExt(BaseExt(src)) {
        names := names + [BaseRoot(src)];
      }
    }

    /** The loop over the commands of one source. */
    method PlaceCommands(cmds: seq<SrcCmd>, out0: seq<string>, ipNames: seq<string>, groups0: map<CmdType, seq<Group>>)
      returns (out: seq<string>, groups: map<CmdType, seq<Group>>, r: Result<(), Fault>)
      ensures (SrcState(out, ipNames, groups), r) == Place(turbo, cmds, 0, SrcState(out0, ipNames, groups0))
    {
      out, groups := out0, groups0;
      for j := 0 to |cmds|
        invariant Place(turbo, cmds, 0, SrcState(out0, ipNames, groups0)) == Place(turbo, cmds, j, SrcState(out, ipNames, groups))
      {
        if turbo {
          groups := AddToGroups(groups, cmds[j]);
        } else {
          var line := Template.Substitute(TemplateOf(cmds[j]), FilesArg(cmds[j].file));
          if line.Err? {
            r := Err(Substitution(line.error));
            return;
          }
          out := out + [line.value];
        }
      }
      r := Ok(());
    }

    /** The turbo-mode loop over the group types and their entries. */
    method WriteGroups(out0: seq<string>, groups: map<CmdType, seq<Group>>) returns (out: seq<string>, r: Result<(), Fault>)
      ensures (out, r) == EmitTypes(groups, 0, out0)
    {
      out := out0;
      for i := 0 to |CmdTypes|
        invariant EmitTypes(groups, 0, out0) == EmitTypes(groups, i, out)
      {
        var gs := GroupsOf(groups, CmdTypes[i]);
        ghost var start := out;
        for j := 0 to |gs|
          invariant EmitGroups(gs, 0, start) == EmitGroups(gs, j, out)
        {
          var line := Template.Substitute(GroupTemplate(gs[j]), FilesArg(Text.JoinWith(gs[j].files, " ")));
          if line.Err? {
            r := Err(Substitution(line.error));
            return;
          }
          out := out + [line.value];
        }
      }
      r := Ok(());
    }

    /** Everything after the sources. */
    method WriteTrailer(out0: seq<string>, host: Host, settings: Settings, setups: seq<SetupItem>, ipNames: seq<string>)
      returns (out: seq<string>)
      ensures out == out0 + Trailer(Config(), host, settings, setups, ipNames)
    {
      out := WriteTop(out0, host, settings);
      out := WriteLines(out, "upgrade_ip [get_ips ", ipNames, "]");
      out := WriteIpRuns(out, ipNames);
      out := WriteSetups(out, setups, true);
      out := out + ["close_project"];
    }

    /** The top-level and IP-cache lines. */
    method WriteTop(out0: seq<string>, host: Host, settings: Settings) returns (out: seq<string>)
      ensures out == out0 + TopLines(Config(), host, settings)
    {
      out := out0 + ["set_property top " + TopEntity(host, settings) + " [get_filesets sources_1]"];
      if "vivado.sim_top_entity" in settings && Values.Truthy(settings["vivado.sim_top_entity"]) {
        out := out + ["set_property top " + Values.Str(settings["vivado.sim_top_entity"]) + " [get_filesets sim_1]"];
      }
      if Truthy(ipCachePath) {
        out := out + ["config_ip_cache -import_from_project -use_cache_location " + host.abspath(ipCachePath.value)];
      }
    }

    /** The three run commands of each IP, IP by IP. */
    method WriteIpRuns(out0: seq<string>, ipNames: seq<string>) returns (out: seq<string>)
      ensures out == out0 + IpRunLines(ipNames)
    {
      out := out0;
      for k := 0 to |ipNames|
        invariant out == out0 + IpRunLines(ipNames[..k])
      {
        assert ipNames[..k + 1][..k] == ipNames[..k];
        out := out + ["delete_ip_run [get_ips " + ipNames[k] + "]"];
        out := out + ["generate_target all [get_ips " + ipNames[k] + "]"];
        out := out + ["create_ip_run [get_ips " + ipNames[k] + "]"];
      }
      assert ipNames[..|ipNames|] == ipNames;
    }
  }
}
