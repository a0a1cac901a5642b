/** The typed command records of `_cmdtypes.py`: one variant per class,
    each with the attributes its constructor stores, its `flags()` and its
    `__eq__`. */
module CmdTypes {
  import opened Wrappers

  /** A command record. `cmd` is the directive that produced it and `cd`
      the `--cd` argument; `Include.depfile` stands for the parsed dep file
      the command refers to, identified by its name. */
  datatype TypedCommand =
    | Base(cmd: string, filePath: string, package: string, component: string, cd: Option<string>)
    | Src(cmd: string, filePath: string, package: string, component: string, cd: Option<string>,
          lib: Option<string>, vhdl2008: bool)
    | Setup(cmd: string, filePath: string, package: string, component: string, cd: Option<string>,
            finalise: bool)
    | Addrtab(cmd: string, filePath: string, package: string, component: string, cd: Option<string>,
              topLevel: bool)
    | Include(cmd: string, filePath: string, package: string, component: string, cd: Option<string>,
              depfile: Option<string>)

  /** `IncludeCommand(cmd, path, pkg, cmp, cd)`: the dep-file argument defaults to None. */
  function NewInclude(cmd: string, filePath: string, package: string, component: string,
                      cd: Option<string>): (r: TypedCommand)
    ensures r.Include? && r.depfile == None
    ensures r.cmd == cmd && r.filePath == filePath && r.package == package
    ensures r.component == component && r.cd == cd
  {
    Include(cmd, filePath, package, component, cd, None)
  }

  /** `c.flags()`: None for the plain and include commands, otherwise the
      one flag of the variant when it is set. */
  function Flags(c: TypedCommand): (r: Option<seq<string>>)
    ensures r == None <==> c.Base? || c.Include?
    ensures r.Some? ==> |r.value| <= 1
    ensures r == Some(["vhdl2008"]) <==> c.Src? && c.vhdl2008
    ensures r == Some(["finalise"]) <==> c.Setup? && c.finalise
    ensures r == Some(["toplevel"]) <==> c.Addrtab? && c.topLevel
    ensures r.Some? ==> (r.value == [] <==> !(c.Src? && c.vhdl2008) && !(c.Setup? && c.finalise) && !(c.Addrtab? && c.topLevel))
  {
    match c
    case Base(_, _, _, _, _) => None
    case Include(_, _, _, _, _, _) => None
    case Src(_, _, _, _, _, _, v) => Some(if v then ["vhdl2008"] else [])
    case Setup(_, _, _, _, _, f) => Some(if f then ["finalise"] else [])
    case Addrtab(_, _, _, _, _, t) => Some(if t then ["toplevel"] else [])
  }

  /** Reading `other.Lib` on a record that has no such attribute. */
  datatype AttributeError = NoLib

  /** `self.__eq__(other)`. Only `SrcCommand` overrides it, to compare the
      library as well; the library of `other` is read only when the paths
      agree (`and` short-circuits), and raises when `other` has none. */
  function Eq(self: TypedCommand, other: TypedCommand): (r: Result<bool, AttributeError>)
    ensures !self.Src? ==> r == Ok(self.filePath == other.filePath)
    ensures self.filePath != other.filePath ==> r == Ok(false)
    ensures r.Err? <==> self.Src? && !other.Src? && self.filePath == other.filePath
    ensures self.Src? && other.Src? ==>
              r == Ok(self.filePath == other.filePath && self.lib == other.lib)
  {
    if self.Src? then
      if self.filePath != other.filePath then Ok(false)
      else if other.Src? then Ok(self.lib == other.lib)
      else Err(NoLib)
    else Ok(self.filePath == other.filePath)
  }

  /** The `==` operator: when the right operand's class is a proper subclass
      of the left one's and overrides `__eq__`, Python asks it first. Among
      these classes that happens only for a plain `Command` on the left and
      a `SrcCommand` on the right. */
  function Equals(a: TypedCommand, b: TypedCommand): (r: Result<bool, AttributeError>)
    ensures r.Err? <==> a.filePath == b.filePath && a.Src? != b.Src? && (a.Src? || a.Base?)
    ensures r.Ok? ==> (r.value <==> a.filePath == b.filePath && (a.Src? && b.Src? ==> a.lib == b.lib))
  {
    if a.Base? && b.Src? then Eq(b, a) else Eq(a, b)
  }

  /** What equality compares: the path, and for source commands the library. */
  function Key(c: TypedCommand): (string, Option<string>) {
    (c.filePath, if c.Src? then c.lib else None)
  }

  /** Two records of the same class are equal exactly when their keys agree,
      and the comparison never raises. */
  lemma EqualsSameClass(a: TypedCommand, b: TypedCommand)
    requires a.Base? == b.Base? && a.Src? == b.Src? && a.Setup? == b.Setup?
    requires a.Addrtab? == b.Addrtab? && a.Include? == b.Include?
    ensures Equals(a, b) == Ok(Key(a) == Key(b))
  {
  }

  /** Every record equals itself. */
  lemma EqualsReflexive(a: TypedCommand)
    ensures Equals(a, a) == Ok(true)
  {
  }

  /** A plain command compared with a source command at the same path
      raises, from whichever side it is written. */
  lemma BaseAgainstSrcRaises(a: TypedCommand, b: TypedCommand)
    requires a.Base? && b.Src? && a.filePath == b.filePath
    ensures Equals(a, b).Err? && Equals(b, a).Err?
  {
  }
}
