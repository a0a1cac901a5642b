/** The values the dependency-file language stores in its variable table.
    Variables come from `key=value` overrides (always strings), from the
    toolset name, and from `@name=expr` directives whose right-hand side is
    an arbitrary Python expression; the model keeps only what the rest of
    the program looks at: `isinstance(v, bool)`, `str(v)` and `bool(v)`. */
module Values {

  datatype Value =
    | VBool(b: bool)
    | VStr(s: string)
    /** Any other Python object, seen through its `str()` and its truth value. */
    | VOther(text: string, truthy: bool)

  /** `str(v)`. */
  function Str(v: Value): (r: string)
    ensures v.VStr? ==> r == v.s
    ensures v.VBool? ==> (r == "True" <==> v.b)
  {
    match v
    case VBool(b) => if b then "True" else "False"
    case VStr(s) => s
    case VOther(t, _) => t
  }

  /** `bool(v)`: a string is true when it is not empty. */
  predicate Truthy(v: Value) {
    match v
    case VBool(b) => b
    case VStr(s) => s != ""
    case VOther(_, t) => t
  }

  /** The variable table (`DepFileParser.vars`). */
  type Vars = map<string, Value>

  /** The table as `string.Template` sees it: every value through `str()`. */
  function StrMap(vars: Vars): (m: map<string, string>)
    ensures m.Keys == vars.Keys
    ensures forall k :: k in vars ==> m[k] == Str(vars[k])
  {
    map k | k in vars :: Str(vars[k])
  }
}
