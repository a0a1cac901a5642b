/** The few Python string operations the dependency parser and the script
    generator rely on: `str.strip`, `str.split()`, `str.split(sep)`,
    `str.count`, `sep.join`, and `os.path.splitext` / `os.path.split` on
    POSIX paths. */
module Text {

  /** Python's `str.isspace` for one character; `str.strip()` and
      `str.split()` cut on exactly these characters. */
  predicate IsSpace(c: char) {
    c == ' ' || ('\t' <= c <= '\r') || ('\U{1c}' <= c <= '\U{1f}')
    || c == '\U{85}' || c == '\U{a0}' || c == '\U{1680}'
    || ('\U{2000}' <= c <= '\U{200a}') || c == '\U{2028}' || c == '\U{2029}'
    || c == '\U{202f}' || c == '\U{205f}' || c == '\U{3000}'
  }

  predicate NoSpace(s: string) {
    forall k :: 0 <= k < |s| ==> !IsSpace(s[k])
  }

  /** `str.lstrip()`: drops the leading white space. */
  function TrimLeft(s: string): (r: string)
    ensures |r| <= |s| && r == s[|s| - |r|..]
    ensures r == [] || !IsSpace(r[0])
  {
    if s != [] && IsSpace(s[0]) then TrimLeft(s[1..]) else s
  }

  /** `str.rstrip()`: drops the trailing white space. */
  function TrimRight(s: string): (r: string)
    ensures |r| <= |s| && r == s[..|r|]
    ensures r == [] || !IsSpace(r[|r| - 1])
  {
    if s != [] && IsSpace(s[|s| - 1]) then TrimRight(s[..|s| - 1]) else s
  }

  /** `str.strip()`. */
  function Strip(s: string): string {
    TrimRight(TrimLeft(s))
  }

  /** `lstrip` removes white space only: every character it cuts is white space. */
  lemma {:induction false} TrimLeftCutsSpace(s: string, k: nat)
    requires k < |s| - |TrimLeft(s)|
    ensures IsSpace(s[k])
  {
    if k > 0 {
      TrimLeftCutsSpace(s[1..], k - 1);
    }
  }

  /** `rstrip` removes white space only: every character it cuts is white space. */
  lemma {:induction false} TrimRightCutsSpace(s: string, k: nat)
    requires |TrimRight(s)| <= k < |s|
    ensures IsSpace(s[k])
  {
    if k < |s| - 1 {
      TrimRightCutsSpace(s[..|s| - 1], k);
    }
  }

  /** A string without white space at either end is its own strip. */
  lemma StripTrimmed(s: string)
    requires s == [] || (!IsSpace(s[0]) && !IsSpace(s[|s| - 1]))
    ensures Strip(s) == s
  {
  }

  /** Stripping twice is stripping once. */
  lemma StripIdempotent(s: string)
    ensures Strip(Strip(s)) == Strip(s)
  {
    var t := TrimLeft(s);
    var r := TrimRight(t);
    if r != [] {
      assert r[0] == t[0];
    }
    StripTrimmed(r);
  }

  /** Length of the leading run of non-space characters. */
  function WordLen(s: string): (n: nat)
    ensures n <= |s|
    ensures forall k :: 0 <= k < n ==> !IsSpace(s[k])
    ensures n == |s| || IsSpace(s[n])
  {
    if s == [] || IsSpace(s[0]) then 0 else 1 + WordLen(s[1..])
  }

  /** `str.split()` with no separator: the maximal runs of non-space
      characters, in order; never an empty token. */
  function SplitWs(s: string): seq<string>
    decreases |s|
  {
    var t := TrimLeft(s);
    if t == [] then []
    else
      var n := WordLen(t);
      [t[..n]] + SplitWs(t[n..])
  }

  /** `str.split()` never gives an empty token, nor one with white space. */
  lemma {:induction false} SplitWsTokens(s: string)
    ensures forall k :: 0 <= k < |SplitWs(s)| ==> SplitWs(s)[k] != [] && NoSpace(SplitWs(s)[k])
    decreases |s|
  {
    var t := TrimLeft(s);
    if t != [] {
      var n := WordLen(t);
      LeadingWord(t);
      SplitWsTokens(t[n..]);
      var r := SplitWs(s);
      assert r == [t[..n]] + SplitWs(t[n..]);
      forall k | 0 <= k < |r|
        ensures r[k] != [] && NoSpace(r[k])
      {
        if k > 0 {
          assert r[k] == SplitWs(t[n..])[k - 1];
        }
      }
    }
  }

  /** The leading run of a string that starts with a non-space character is
      a non-empty token. */
  lemma LeadingWord(t: string)
    requires t != [] && !IsSpace(t[0])
    ensures 1 <= WordLen(t) && NoSpace(t[..WordLen(t)])
  {
  }

  /** `sep.join(parts)`. */
  function JoinWith(parts: seq<string>, sep: string): string {
    if parts == [] then ""
    else if |parts| == 1 then parts[0]
    else parts[0] + sep + JoinWith(parts[1..], sep)
  }

  lemma {:induction false} WordLenOfWord(w: string, u: string)
    requires NoSpace(w)
    requires u == [] || IsSpace(u[0])
    ensures WordLen(w + u) == |w|
  {
    if w != [] {
      assert (w + u)[1..] == w[1..] + u;
      WordLenOfWord(w[1..], u);
    }
  }

  /** A word, a space and text not starting with white space split as the
      word followed by the split of the text. */
  lemma SplitWordSpace(w: string, rest: string)
    requires w != [] && NoSpace(w)
    requires rest == [] || !IsSpace(rest[0])
    ensures SplitWs(w + " " + rest) == [w] + SplitWs(rest)
  {
    var line := w + " " + rest;
    assert line == w + (" " + rest);
    assert TrimLeft(line) == line;
    WordLenOfWord(w, " " + rest);
    assert line[..|w|] == w;
    assert line[|w|..] == " " + rest;
    assert TrimLeft(" " + rest) == TrimLeft(rest) by {
      assert (" " + rest)[1..] == rest;
    }
    assert TrimLeft(rest) == rest;
  }

  /** Splitting a space-joined list of non-empty, space-free tokens gives the
      tokens back. */
  lemma {:induction false} SplitJoinSpace(toks: seq<string>)
    requires forall k :: 0 <= k < |toks| ==> toks[k] != [] && NoSpace(toks[k])
    ensures SplitWs(JoinWith(toks, " ")) == toks
  {
    if toks == [] {
    } else if |toks| == 1 {
      var t := toks[0];
      assert TrimLeft(t) == t;
      WordLenOfWord(t, "");
      assert t + "" == t;
      assert t[|t|..] == [];
    } else {
      var rest := JoinWith(toks[1..], " ");
      assert JoinWith(toks, " ") == toks[0] + " " + rest;
      SplitJoinSpace(toks[1..]);
      assert toks[1..][0] != [] && !IsSpace(toks[1..][0][0]);
      JoinStartsWithFirst(toks[1..], " ");
      SplitWordSpace(toks[0], rest);
      assert [toks[0]] + toks[1..] == toks;
    }
  }

  lemma {:induction false} JoinStartsWithFirst(parts: seq<string>, sep: string)
    requires parts != []
    ensures |JoinWith(parts, sep)| >= |parts[0]|
    ensures JoinWith(parts, sep)[..|parts[0]|] == parts[0]
  {
    if |parts| > 1 {
      assert JoinWith(parts, sep) == parts[0] + (sep + JoinWith(parts[1..], sep));
    }
  }

  /** `s.split(c)` for a one-character separator: the pieces between the
      occurrences of `c`, so always one more piece than occurrences. */
  function SplitOn(s: string, c: char): (r: seq<string>)
    ensures |r| >= 1
    ensures forall k :: 0 <= k < |r| ==> c !in r[k]
  {
    if s == [] then [""]
    else
      var rest := SplitOn(s[1..], c);
      if s[0] == c then [""] + rest else [[s[0]] + rest[0]] + rest[1..]
  }

  /** `s.split(c)` has `s.count(c) + 1` pieces. */
  lemma {:induction false} SplitOnCount(s: string, c: char)
    ensures |SplitOn(s, c)| == multiset(s)[c] + 1
  {
    if s != [] {
      SplitOnCount(s[1..], c);
      assert s == [s[0]] + s[1..];
      assert multiset(s) == multiset{s[0]} + multiset(s[1..]);
    }
  }

  /** Joining the pieces of `s.split(c)` with `c` rebuilds `s`. */
  lemma {:induction false} SplitOnJoin(s: string, c: char)
    ensures JoinWith(SplitOn(s, c), [c]) == s
  {
    if s != [] {
      SplitOnJoin(s[1..], c);
      var rest := SplitOn(s[1..], c);
      if s[0] == c {
        assert [""] + rest != [] && |[""] + rest| > 1;
        assert ([""] + rest)[1..] == rest;
        assert JoinWith([""] + rest, [c]) == "" + [c] + JoinWith(rest, [c]);
        assert s == [s[0]] + s[1..];
      } else {
        var r := [[s[0]] + rest[0]] + rest[1..];
        if |rest| == 1 {
          assert JoinWith(r, [c]) == [s[0]] + rest[0];
          assert JoinWith(rest, [c]) == rest[0];
        } else {
          assert r[1..] == rest[1..];
          assert JoinWith(rest, [c]) == rest[0] + [c] + JoinWith(rest[1..], [c]);
          assert JoinWith(r, [c]) == ([s[0]] + rest[0]) + [c] + JoinWith(rest[1..], [c]);
        }
        assert s == [s[0]] + s[1..];
      }
    }
  }

  /** `c.join(parts).split(c) == parts` when no part contains `c`. */
  lemma {:induction false} SplitJoinOn(parts: seq<string>, c: char)
    requires parts != []
    requires forall k :: 0 <= k < |parts| ==> c !in parts[k]
    ensures SplitOn(JoinWith(parts, [c]), c) == parts
  {
    if |parts| == 1 {
      NoSepSplit(parts[0], c);
    } else {
      var w := parts[0];
      var rest := JoinWith(parts[1..], [c]);
      assert JoinWith(parts, [c]) == w + ([c] + rest);
      SplitJoinOn(parts[1..], c);
      SplitAfterWord(w, [c] + rest, c);
      assert ([c] + rest)[1..] == rest;
      assert SplitOn([c] + rest, c) == [""] + parts[1..];
      assert w + "" == w;
      assert [w] + parts[1..] == parts;
    }
  }

  lemma {:induction false} NoSepSplit(s: string, c: char)
    requires c !in s
    ensures SplitOn(s, c) == [s]
  {
    if s != [] {
      assert c !in s[1..] by {
        forall k | 0 <= k < |s[1..]| ensures s[1..][k] != c { assert s[1..][k] == s[k + 1]; }
      }
      NoSepSplit(s[1..], c);
      assert s[0] != c;
      assert [s[0]] + s[1..] == s;
    }
  }

  /** A separator-free prefix glues onto the first piece of what follows. */
  lemma {:induction false} SplitAfterWord(w: string, u: string, c: char)
    requires c !in w
    ensures SplitOn(w + u, c) == [w + SplitOn(u, c)[0]] + SplitOn(u, c)[1..]
  {
    var S := SplitOn(u, c);
    if w == [] {
      assert w + u == u && w + S[0] == S[0];
      assert S == [S[0]] + S[1..];
    } else {
      assert (w + u)[1..] == w[1..] + u;
      assert w == [w[0]] + w[1..];
      SplitAfterWord(w[1..], u, c);
      assert [w[0]] + (w[1..] + S[0]) == w + S[0];
    }
  }


  /** The indices of `c` in `s`, ascending: `[i for i, x in enumerate(s) if x == c]`. */
  function Positions(s: string, c: char): (r: seq<nat>)
    ensures forall k :: 0 <= k < |r| ==> r[k] < |s| && s[r[k]] == c
    ensures forall k, l :: 0 <= k < l < |r| ==> r[k] < r[l]
  {
    if s == [] then []
    else
      var rest := Positions(s[..|s| - 1], c);
      if s[|s| - 1] == c then rest + [|s| - 1] else rest
  }

  /** `Positions` lists every occurrence, so there are `s.count(c)` of them. */
  lemma {:induction false} PositionsExact(s: string, c: char)
    ensures |Positions(s, c)| == multiset(s)[c]
    ensures forall i :: 0 <= i < |s| && s[i] == c ==> i in Positions(s, c)
  {
    if s != [] {
      var init := s[..|s| - 1];
      PositionsExact(init, c);
      assert s == init + [s[|s| - 1]];
      assert multiset(s) == multiset(init) + multiset{s[|s| - 1]};
      forall i | 0 <= i < |s| && s[i] == c
        ensures i in Positions(s, c)
      {
        if i < |s| - 1 {
          assert init[i] == s[i];
        }
      }
    }
  }

  /** `s.rfind(c)`: the last index of `c` in `s`, or -1. */
  function LastIndex(s: string, c: char): (r: int)
    ensures -1 <= r < |s|
    ensures r >= 0 ==> s[r] == c
  {
    if s == [] then -1
    else if s[|s| - 1] == c then |s| - 1
    else LastIndex(s[..|s| - 1], c)
  }

  /** No `c` follows the one `LastIndex` finds. */
  lemma {:induction false} LastIndexIsLast(s: string, c: char, k: int)
    requires LastIndex(s, c) < k < |s|
    ensures s[k] != c
  {
    if s[|s| - 1] != c && k < |s| - 1 {
      LastIndexIsLast(s[..|s| - 1], c, k);
    }
  }

  /** In a suffix `s[a..]`, the last `c` is the one of `s`, shifted, if it lies in the suffix. */
  lemma LastIndexOfSuffix(s: string, a: nat, c: char)
    requires a <= |s|
    ensures LastIndex(s[a..], c) == if LastIndex(s, c) >= a then LastIndex(s, c) - a else -1
  {
    var r := LastIndex(s, c);
    var r' := LastIndex(s[a..], c);
    if r' >= 0 {
      assert s[a + r'] == c;
      if r < a + r' {
        LastIndexIsLast(s, c, a + r');
      }
    }
    if r >= a {
      assert s[a..][r - a] == c;
      if r' < r - a {
        LastIndexIsLast(s[a..], c, r - a);
      }
    }
  }

  /** Some character of `s` is not a dot. */
  predicate HasNonDot(s: string) {
    s != [] && (s[0] != '.' || HasNonDot(s[1..]))
  }

  /** Where the extension of a file name (no `/` in it) starts: at its last
      dot, unless only dots come before that; at the end when there is no
      extension. */
  function NameExtStart(b: string): (i: nat)
    ensures i <= |b|
  {
    var di := LastIndex(b, '.');
    if di > 0 && HasNonDot(b[..di]) then di else |b|
  }

  /** Where `os.path.splitext` (POSIX) cuts: the extension of the last path
      component, found after the last `/`. */
  function ExtStart(p: string): (i: nat)
    ensures i <= |p|
  {
    var a := LastIndex(p, '/') + 1;
    a + NameExtStart(p[a..])
  }

  /** `os.path.splitext`: the root and the extension. */
  function SplitExt(p: string): (r: (string, string))
    ensures r.0 + r.1 == p
  {
    (p[..ExtStart(p)], p[ExtStart(p)..])
  }

  /** The tail of `os.path.split`: everything after the last `/`. */
  function Basename(p: string): (b: string)
    ensures LastIndex(b, '/') == -1
  {
    LastIndexOfSuffix(p, LastIndex(p, '/') + 1, '/');
    p[LastIndex(p, '/') + 1..]
  }

  /** Taking the extension of a path or of its last component gives the same
      result, so `splitext(path)` and `splitext(split(path)[1])` agree on it. */
  lemma ExtOfBasename(p: string)
    ensures SplitExt(Basename(p)).1 == SplitExt(p).1
  {
    var b := Basename(p);
    assert b[0..] == b;
    assert ExtStart(b) == NameExtStart(b);
  }

  /** `HasNonDot` holds exactly when some character is not a dot. */
  lemma {:induction false} HasNonDotIff(s: string)
    ensures HasNonDot(s) <==> exists k :: 0 <= k < |s| && s[k] != '.'
  {
    if s != [] && s[0] == '.' {
      HasNonDotIff(s[1..]);
      if HasNonDot(s[1..]) {
        var k :| 0 <= k < |s[1..]| && s[1..][k] != '.';
        assert s[k + 1] != '.';
      }
      if exists k :: 0 <= k < |s| && s[k] != '.' {
        var k :| 0 <= k < |s| && s[k] != '.';
        assert s[1..][k - 1] != '.';
      }
    }
  }

  /** The extension of a file name is empty, or a dot followed by no other
      dot. */
  lemma NameExtShape(b: string)
    ensures NameExtStart(b) < |b| ==> b[NameExtStart(b)] == '.'
    ensures forall k :: NameExtStart(b) < k < |b| ==> b[k] != '.'
  {
    forall k | NameExtStart(b) < k < |b|
      ensures b[k] != '.'
    {
      LastIndexIsLast(b, '.', k);
    }
  }

  /** A file name has an extension exactly when it holds a dot after some
      other character. */
  lemma NameExtIff(b: string)
    ensures NameExtStart(b) < |b| <==> exists j, i :: 0 <= j < i < |b| && b[j] != '.' && b[i] == '.'
  {
    var di := LastIndex(b, '.');
    if NameExtStart(b) < |b| {
      HasNonDotIff(b[..di]);
      var j :| 0 <= j < |b[..di]| && b[..di][j] != '.';
      assert b[j] != '.' && b[di] == '.';
    }
    forall j, i | 0 <= j < i < |b| && b[j] != '.' && b[i] == '.'
      ensures NameExtStart(b) < |b|
    {
      if di < i {
        LastIndexIsLast(b, '.', i);
      }
      assert b[..di][j] != '.';
      HasNonDotIff(b[..di]);
    }
  }

  /** What `os.path.splitext` cuts off: nothing, or a dot followed by
      neither a `/` nor another dot; and it cuts something off exactly
      when the last path component holds a dot after some other character. */
  lemma SplitExtCut(p: string)
    ensures var e := SplitExt(p).1;
      && (e == [] || e[0] == '.')
      && (forall k :: 0 <= k < |e| ==> e[k] != '/')
      && (forall k :: 1 <= k < |e| ==> e[k] != '.')
    ensures var b := Basename(p);
      SplitExt(p).1 != [] <==> exists j, i :: 0 <= j < i < |b| && b[j] != '.' && b[i] == '.'
  {
    var b := Basename(p);
    ExtOfBasename(p);
    assert b[0..] == b;
    var n := NameExtStart(b);
    assert SplitExt(p).1 == b[n..];
    NameExtShape(b);
    NameExtIff(b);
    forall k | 1 <= k < |b| - n
      ensures b[n..][k] != '.'
    {
      assert b[n + k] != '.';
    }
    forall k | n <= k < |b|
      ensures b[k] != '/'
    {
      LastIndexIsLast(b, '/', k);
    }
  }



}
