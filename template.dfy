/** Python's `string.Template(s).substitute(mapping)` with the default
    delimiter `$` and the default ASCII identifier pattern
    `[_a-zA-Z][_a-zA-Z0-9]*`. */
module Template {
  import opened Wrappers

  /** The two exceptions `substitute` raises: `KeyError` for an unbound
      name and `ValueError` for a `$` that starts no valid placeholder. */
  datatype TemplateError = KeyError(name: string) | InvalidPlaceholder

  predicate IsIdStart(c: char) {
    c == '_' || 'a' <= c <= 'z' || 'A' <= c <= 'Z'
  }

  predicate IsIdChar(c: char) {
    IsIdStart(c) || '0' <= c <= '9'
  }

  /** Length of the longest identifier at the front of `s` (0 when none). */
  function IdLen(s: string): (n: nat)
    ensures n <= |s|
    ensures n > 0 ==> IsIdStart(s[0])
    ensures n == 0 ==> s == [] || !IsIdStart(s[0])
    ensures forall k :: 0 <= k < n ==> IsIdChar(s[k])
    ensures n < |s| && n > 0 ==> !IsIdChar(s[n])
  {
    if s == [] || !IsIdStart(s[0]) then 0 else 1 + IdTail(s[1..])
  }

  /** Length of the run of identifier characters at the front of `s`. */
  function IdTail(s: string): (n: nat)
    ensures n <= |s|
    ensures forall k :: 0 <= k < n ==> IsIdChar(s[k])
    ensures n < |s| ==> !IsIdChar(s[n])
  {
    if s == [] || !IsIdChar(s[0]) then 0 else 1 + IdTail(s[1..])
  }

  /** `s` is one identifier as the placeholder pattern reads it. */
  predicate IsIdentifier(s: string) {
    s != [] && IdLen(s) == |s|
  }

  /** Prefixes `p` to a successful result; an error passes through. */
  function Prepend(p: string, r: Result<string, TemplateError>): Result<string, TemplateError> {
    match r
    case Ok(t) => Ok(p + t)
    case Err(e) => Err(e)
  }

  /** `Template(s).substitute(m)`: placeholders are replaced left to right;
      the first unbound name or malformed placeholder aborts. */
  function Substitute(s: string, m: map<string, string>): (r: Result<string, TemplateError>)
    ensures r.Err? && r.error.InvalidPlaceholder? ==> '$' in s
    ensures r.Err? && r.error.KeyError? ==> r.error.name !in m && IsIdentifier(r.error.name)
    decreases |s|
  {
    if s == [] then Ok("")
    else if s[0] != '$' then Prepend([s[0]], Substitute(s[1..], m))
    else if |s| >= 2 && s[1] == '$' then Prepend("$", Substitute(s[2..], m))
    else
      var n := IdLen(s[1..]);
      if n > 0 then
        var name := s[1..1 + n];
        if name in m then Prepend(m[name], Substitute(s[1 + n..], m)) else Err(KeyError(name))
      else if |s| >= 2 && s[1] == '{' && IdLen(s[2..]) > 0 && 2 + IdLen(s[2..]) < |s| && s[2 + IdLen(s[2..])] == '}' then
        var k := IdLen(s[2..]);
        var name := s[2..2 + k];
        if name in m then Prepend(m[name], Substitute(s[3 + k..], m)) else Err(KeyError(name))
      else Err(InvalidPlaceholder)
  }

  lemma PrependPrepend(a: string, b: string, r: Result<string, TemplateError>)
    ensures Prepend(a, Prepend(b, r)) == Prepend(a + b, r)
  {
    if r.Ok? {
      assert a + (b + r.value) == (a + b) + r.value;
    }
  }

  /** Text without `$` is copied unchanged. */
  lemma {:induction false} NoPlaceholder(s: string, m: map<string, string>)
    requires '$' !in s
    ensures Substitute(s, m) == Ok(s)
  {
    if s != [] {
      assert '$' !in s[1..] by {
        forall k | 0 <= k < |s[1..]| ensures s[1..][k] != '$' { assert s[1..][k] == s[k + 1]; }
      }
      NoPlaceholder(s[1..], m);
      assert [s[0]] + s[1..] == s;
    }
  }

  /** A `$`-free prefix is copied and the rest is substituted on its own. */
  lemma {:induction false} LiteralPrefix(u: string, t: string, m: map<string, string>)
    requires '$' !in u
    ensures Substitute(u + t, m) == Prepend(u, Substitute(t, m))
  {
    if u == [] {
      assert u + t == t;
      match Substitute(t, m)
      case Ok(x) => assert u + x == x;
      case Err(_) =>
    } else {
      assert (u + t)[0] == u[0];
      assert (u + t)[1..] == u[1..] + t;
      assert '$' !in u[1..] by {
        forall k | 0 <= k < |u[1..]| ensures u[1..][k] != '$' { assert u[1..][k] == u[k + 1]; }
      }
      LiteralPrefix(u[1..], t, m);
      PrependPrepend([u[0]], u[1..], Substitute(t, m));
      assert [u[0]] + u[1..] == u;
    }
  }

  lemma {:induction false} IdTailOf(w: string, t: string)
    requires forall k :: 0 <= k < |w| ==> IsIdChar(w[k])
    requires t == [] || !IsIdChar(t[0])
    ensures IdTail(w + t) == |w|
  {
    if w != [] {
      assert (w + t)[1..] == w[1..] + t;
      IdTailOf(w[1..], t);
    } else {
      assert w + t == t;
    }
  }

  /** The identifier after `$` is read up to the first non-identifier character. */
  lemma IdLenOf(name: string, t: string)
    requires IsIdentifier(name)
    requires t == [] || !IsIdChar(t[0])
    ensures IdLen(name + t) == |name|
  {
    assert (name + t)[1..] == name[1..] + t;
    IdTailOf(name[1..], t);
  }

  /** `$name` is replaced by the bound value, the rest substituted after it. */
  lemma Named(name: string, t: string, m: map<string, string>)
    requires IsIdentifier(name) && name in m
    requires t == [] || !IsIdChar(t[0])
    ensures Substitute("$" + name + t, m) == Prepend(m[name], Substitute(t, m))
  {
    var s := "$" + name + t;
    assert s[1..] == name + t;
    assert s[0] == '$' && s[1] == name[0] && name[0] != '$';
    IdLenOf(name, t);
    assert s[1..1 + |name|] == name;
    assert s[1 + |name|..] == t;
  }

  /** `$name` with `name` unbound raises `KeyError(name)`. */
  lemma Unbound(name: string, t: string, m: map<string, string>)
    requires IsIdentifier(name) && name !in m
    requires t == [] || !IsIdChar(t[0])
    ensures Substitute("$" + name + t, m) == Err(KeyError(name))
  {
    var s := "$" + name + t;
    assert s[1..] == name + t;
    assert s[0] == '$' && s[1] == name[0] && name[0] != '$';
    IdLenOf(name, t);
    assert s[1..1 + |name|] == name;
  }

  /** `${name}` is replaced by the bound value whatever follows it. */
  lemma Braced(name: string, t: string, m: map<string, string>)
    requires IsIdentifier(name) && name in m
    ensures Substitute("${" + name + "}" + t, m) == Prepend(m[name], Substitute(t, m))
  {
    var s := "${" + name + "}" + t;
    assert s[1..] == "{" + name + "}" + t;
    assert s[2..] == name + ("}" + t);
    IdLenOf(name, "}" + t);
    assert s[2..2 + |name|] == name;
    assert s[3 + |name|..] == t;
  }

  /** `$$` is an escaped `$`. */
  lemma Escape(t: string, m: map<string, string>)
    ensures Substitute("$$" + t, m) == Prepend("$", Substitute(t, m))
  {
    assert ("$$" + t)[2..] == t;
  }

  /** A `$` that is followed by neither `$`, `{` nor an identifier raises `ValueError`. */
  lemma Dangling(t: string, m: map<string, string>)
    requires t == [] || (t[0] != '$' && t[0] != '{' && !IsIdStart(t[0]))
    ensures Substitute("$" + t, m) == Err(InvalidPlaceholder)
  {
    assert ("$" + t)[1..] == t;
  }
}
