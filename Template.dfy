/** Python's `string.Template(template).safe_substitute(mapping)`, as used by the
    fragment compiler.

    The template pattern of `string.Template` recognises, at every `$`:
      - `$$`              an escaped delimiter, rendered as a single `$`;
      - `$name`           a placeholder, `name` the longest ASCII identifier that follows;
      - `${name}`         a braced placeholder;
      - any other `$`     an ill-formed delimiter, which `safe_substitute` keeps as it is.
    A placeholder whose name is in the mapping becomes the mapped text; one whose name
    is not keeps its own text. The template is scanned once, left to right, and the
    inserted text is never scanned again.

    The model splits that into a scanner (`Scan`, template to tokens) and an expansion
    (`Expand`, tokens to text), and `SafeSubstitute` is their composition. */
module Template {

  /** A character that may start a placeholder name (`[_a-z]`, case-insensitive, ASCII only). */
  predicate IsNameStart(c: char) {
    c == '_' || ('a' <= c <= 'z') || ('A' <= c <= 'Z')
  }

  /** A character that may continue a placeholder name (`[_a-z0-9]`, case-insensitive, ASCII only). */
  predicate IsNameChar(c: char) {
    IsNameStart(c) || ('0' <= c <= '9')
  }

  /** A well-formed placeholder name. */
  predicate IsName(s: string) {
    |s| > 0 && IsNameStart(s[0]) && forall i :: 1 <= i < |s| ==> IsNameChar(s[i])
  }

  /** `rest` cannot extend a placeholder name that ends just before it. */
  predicate EndsName(rest: string) {
    rest == [] || !IsNameChar(rest[0])
  }

  /** Length of the longest prefix of `s` made of name characters. */
  function NameTail(s: string): (n: nat)
    ensures n <= |s|
    ensures forall i :: 0 <= i < n ==> IsNameChar(s[i])
    ensures EndsName(s[n..])
  {
    if |s| > 0 && IsNameChar(s[0]) then 1 + NameTail(s[1..]) else 0
  }

  /** Length of the (greedy) placeholder name at the start of `s`, 0 when there is none. */
  function NameLength(s: string): (n: nat)
    ensures n <= |s|
    ensures n > 0 ==> IsName(s[..n]) && EndsName(s[n..])
    ensures n == 0 ==> s == [] || !IsNameStart(s[0])
  {
    if |s| > 0 && IsNameStart(s[0]) then 1 + NameTail(s[1..]) else 0
  }

  /** `s` starts with `{name}` and that form is `j` characters long. */
  predicate BracedForm(s: string, j: int) {
    3 <= j <= |s| && s[0] == '{' && IsName(s[1..j - 1]) && s[j - 1] == '}'
  }

  /** Length of `{name}` at the start of `s`, 0 when `s` does not start with one. */
  function BracedLength(s: string): (k: nat)
    ensures k <= |s|
    ensures k > 0 ==> BracedForm(s, k)
    ensures forall j :: BracedForm(s, j) ==> k == j
  {
    BracedNameIsGreedy(s);
    if |s| > 0 && s[0] == '{' then
      var n := NameLength(s[1..]);
      if n > 0 && 1 + n < |s| && s[1 + n] == '}' then n + 2 else 0
    else 0
  }

  lemma BracedNameIsGreedy(s: string)
    ensures forall j :: BracedForm(s, j) ==> NameLength(s[1..]) == j - 2
  {
    forall j | BracedForm(s, j)
      ensures NameLength(s[1..]) == j - 2
    {
      var name, rest := s[1..j - 1], s[j - 1..];
      assert s[1..] == name + rest;
      assert rest[0] == '}';
      NameLengthOf(name, rest);
    }
  }

  /** One match of the template pattern, or one character outside any match. */
  datatype Token =
    | Literal(c: char)       // a character that is not a delimiter
    | Escaped                // `$$`
    | Named(name: string)    // `$name`
    | Braced(name: string)   // `${name}`
    | Stray                  // a `$` that starts no valid form

  /** The template text a token was scanned from. */
  function Raw(tok: Token): string {
    match tok
    case Literal(c) => [c]
    case Escaped => "$$"
    case Named(name) => "$" + name
    case Braced(name) => "${" + name + "}"
    case Stray => "$"
  }

  /** The token at the start of a non-empty template: the first alternative of
      the pattern that matches there, or the plain character. Its raw text is
      a prefix of the template. */
  function NextToken(t: string): (tok: Token)
    requires t != []
    ensures 0 < |Raw(tok)| <= |t| && t[..|Raw(tok)|] == Raw(tok)
  {
    if t[0] != '$' then Literal(t[0])
    else if |t| >= 2 && t[1] == '$' then Escaped
    else
      var n := NameLength(t[1..]);
      if n > 0 then
        NamedPrefix(t, n);
        Named(t[1..1 + n])
      else
        var k := BracedLength(t[1..]);
        if k > 0 then
          BracedPrefix(t, k);
          Braced(t[2..k])
        else Stray
  }

  lemma NamedPrefix(t: string, n: nat)
    requires 0 < n < |t| && t[0] == '$'
    ensures t[..1 + n] == "$" + t[1..1 + n]
  {
  }

  lemma BracedPrefix(t: string, k: nat)
    requires 3 <= k < |t| && t[0] == '$'
    requires k <= |t[1..]| && t[1..][0] == '{' && IsName(t[1..][1..k-1]) && t[1..][k-1] == '}'
    ensures IsName(t[2..k])
    ensures t[..1 + k] == "${" + t[2..k] + "}"
  {
    assert t[1..][1..k-1] == t[2..k];
    assert t[1] == '{' && t[k] == '}';
    var r := "${" + t[2..k] + "}";
    assert |r| == 1 + k;
    forall i | 0 <= i < 1 + k
      ensures t[i] == r[i]
    {
      if 2 <= i < k {
        assert r[i] == t[2..k][i - 2];
      }
    }
  }

  /** Splits a template into tokens, left to right, as the template pattern does. */
  function Scan(t: string): (toks: seq<Token>)
    decreases |t|
  {
    if t == [] then [] else
      var tok := NextToken(t);
      [tok] + Scan(t[|Raw(tok)|..])
  }

  /** The concatenated raw text of a token sequence. */
  function Unparse(toks: seq<Token>): string {
    if toks == [] then "" else Raw(toks[0]) + Unparse(toks[1..])
  }

  /** The placeholder names a token sequence refers to. */
  function Names(toks: seq<Token>): set<string> {
    if toks == [] then {}
    else (if toks[0].Named? || toks[0].Braced? then {toks[0].name} else {}) + Names(toks[1..])
  }

  /** What `safe_substitute` puts in place of one token. */
  function Convert(tok: Token, m: map<string, string>): string {
    match tok
    case Literal(c) => [c]
    case Escaped => "$"
    case Named(name) => if name in m then m[name] else Raw(tok)
    case Braced(name) => if name in m then m[name] else Raw(tok)
    case Stray => "$"
  }

  /** Converts each token once; the converted text is not looked at again. */
  function Expand(toks: seq<Token>, m: map<string, string>): string {
    if toks == [] then "" else Convert(toks[0], m) + Expand(toks[1..], m)
  }

  /** `string.Template(t).safe_substitute(m)`. */
  function SafeSubstitute(t: string, m: map<string, string>): string {
    Expand(Scan(t), m)
  }

  /** The placeholder names a template refers to, in either form. */
  function Placeholders(t: string): set<string> {
    Names(Scan(t))
  }

  // ---------------------------------------------------------------------------
  // The scanner loses nothing

  /** Scanning a template and writing the tokens back gives the template. */
  lemma {:induction false} ScanRoundTrip(t: string)
    ensures Unparse(Scan(t)) == t
    decreases |t|
  {
    if t != [] {
      var tok := NextToken(t);
      var rest := t[|Raw(tok)|..];
      var toks := Scan(t);
      assert toks[0] == tok && toks[1..] == Scan(rest);
      ScanRoundTrip(rest);
      assert t == t[..|Raw(tok)|] + rest;
    }
  }

  // ---------------------------------------------------------------------------
  // Expansion

  /** Two mappings that agree on every name in `toks` expand `toks` alike. */
  lemma {:induction false} ExpandAgree(toks: seq<Token>, m1: map<string, string>, m2: map<string, string>)
    requires forall x :: x in Names(toks) ==> (x in m1 <==> x in m2) && (x in m1 ==> m1[x] == m2[x])
    ensures Expand(toks, m1) == Expand(toks, m2)
  {
    if toks != [] {
      assert Names(toks) == (if toks[0].Named? || toks[0].Braced? then {toks[0].name} else {}) + Names(toks[1..]);
      ExpandAgree(toks[1..], m1, m2);
    }
  }

  /** Only the bindings of names the template refers to matter: a binding that
      no placeholder names has no effect. */
  lemma UnusedBindingsIgnored(t: string, m1: map<string, string>, m2: map<string, string>)
    requires forall x :: x in Placeholders(t) ==> (x in m1 <==> x in m2) && (x in m1 ==> m1[x] == m2[x])
    ensures SafeSubstitute(t, m1) == SafeSubstitute(t, m2)
  {
    ExpandAgree(Scan(t), m1, m2);
  }

  /** No two adjacent delimiters, so no `$$` escape. */
  predicate NoEscapes(t: string) {
    forall i :: 0 <= i < |t| - 1 ==> !(t[i] == '$' && t[i + 1] == '$')
  }

  /** With no escape in the template and no referenced name bound, every token
      expands to its own text. */
  lemma {:induction false} ExpandUnbound(t: string, m: map<string, string>)
    requires NoEscapes(t)
    requires forall x :: x in Placeholders(t) ==> x !in m
    ensures Expand(Scan(t), m) == Unparse(Scan(t))
    decreases |t|
  {
    if t != [] {
      var tok := NextToken(t);
      var k := |Raw(tok)|;
      var rest := t[k..];
      var toks := Scan(t);
      assert toks[0] == tok && toks[1..] == Scan(rest);
      assert NoEscapes(rest) by {
        forall i | 0 <= i < |rest| - 1 ensures !(rest[i] == '$' && rest[i + 1] == '$') {
          assert rest[i] == t[k + i] && rest[i + 1] == t[k + i + 1];
        }
      }
      assert Names(toks) == (if tok.Named? || tok.Braced? then {tok.name} else {}) + Names(Scan(rest));
      ExpandUnbound(rest, m);
    }
  }

  /** A placeholder with no binding passes through verbatim: a template without
      `$$` in which no referenced name is bound comes out unchanged. */
  lemma UnboundPassThrough(t: string, m: map<string, string>)
    requires NoEscapes(t)
    requires forall x :: x in Placeholders(t) ==> x !in m
    ensures SafeSubstitute(t, m) == t
  {
    ExpandUnbound(t, m);
    ScanRoundTrip(t);
  }

  // ---------------------------------------------------------------------------
  // Substituting a template piece by piece

  /** Scanning a template that starts with the raw text of `tok`. */
  lemma ScanFirst(t: string, tok: Token, rest: string)
    requires t == Raw(tok) + rest && NextToken(t) == tok
    ensures Scan(t) == [tok] + Scan(rest)
    ensures SafeSubstitute(t, map[]) == Convert(tok, map[]) + SafeSubstitute(rest, map[])
  {
    assert t[|Raw(tok)|..] == rest;
  }

  /** Substituting a template that starts with the raw text of `tok`. */
  lemma SubstituteFirst(t: string, tok: Token, rest: string, m: map<string, string>)
    requires t == Raw(tok) + rest && NextToken(t) == tok
    ensures SafeSubstitute(t, m) == Convert(tok, m) + SafeSubstitute(rest, m)
  {
    ScanFirst(t, tok, rest);
  }

  lemma SubstituteNothing(m: map<string, string>)
    ensures SafeSubstitute("", m) == ""
  {
  }

  /** Text without a delimiter is copied. */
  lemma {:induction false} SubstituteLiteral(p: string, rest: string, m: map<string, string>)
    requires '$' !in p
    ensures SafeSubstitute(p + rest, m) == p + SafeSubstitute(rest, m)
  {
    if p == [] {
      assert p + rest == rest;
    } else {
      var c, tail := p[0], p[1..];
      assert p == [c] + tail;
      var t := p + rest;
      assert t == [c] + (tail + rest);
      assert Raw(Literal(c)) == [c];
      assert NextToken(t) == Literal(c) by {
        assert t[0] == c && c != '$';
      }
      SubstituteFirst(t, Literal(c), tail + rest, m);
      assert '$' !in tail;
      SubstituteLiteral(tail, rest, m);
      var s := SafeSubstitute(rest, m);
      assert Convert(Literal(c), m) == [c];
      assert [c] + (tail + s) == p + s;
    }
  }

  lemma {:induction false} NameTailOf(w: string, rest: string)
    requires forall i :: 0 <= i < |w| ==> IsNameChar(w[i])
    requires EndsName(rest)
    ensures NameTail(w + rest) == |w|
  {
    if w == [] {
      assert w + rest == rest;
    } else {
      assert (w + rest)[0] == w[0] && (w + rest)[1..] == w[1..] + rest;
      NameTailOf(w[1..], rest);
    }
  }

  lemma NameLengthOf(name: string, rest: string)
    requires IsName(name) && EndsName(rest)
    ensures NameLength(name + rest) == |name|
  {
    assert (name + rest)[0] == name[0] && (name + rest)[1..] == name[1..] + rest;
    NameTailOf(name[1..], rest);
  }

  /** `$name` becomes the bound text, or stays as it is when `name` is unbound;
      the bound text is inserted as it is, even when it holds a `$`. */
  lemma SubstituteNamed(name: string, rest: string, m: map<string, string>)
    requires IsName(name) && EndsName(rest)
    ensures SafeSubstitute("$" + name + rest, m)
         == (if name in m then m[name] else "$" + name) + SafeSubstitute(rest, m)
  {
    var t := "$" + name + rest;
    assert t[1..] == name + rest;
    NameLengthOf(name, rest);
    assert t[1..1 + |name|] == name;
    SubstituteFirst(t, Named(name), rest, m);
  }

  /** `${name}` becomes the bound text, or stays as it is when `name` is unbound. */
  lemma SubstituteBraced(name: string, rest: string, m: map<string, string>)
    requires IsName(name)
    ensures SafeSubstitute("${" + name + "}" + rest, m)
         == (if name in m then m[name] else "${" + name + "}") + SafeSubstitute(rest, m)
  {
    var t := "${" + name + "}" + rest;
    var s := t[1..];
    assert s == "{" + (name + ("}" + rest));
    assert s[0] == '{' && s[1..] == name + ("}" + rest);
    assert !IsNameChar('}');
    NameLengthOf(name, "}" + rest);
    assert NameLength(t[1..]) == 0;
    assert s[1 + |name|] == '}';
    assert BracedLength(s) == |name| + 2;
    assert t[2..|name| + 2] == name;
    SubstituteFirst(t, Braced(name), rest, m);
  }

  /** `$$` becomes `$`, and what follows it is scanned afresh. */
  lemma SubstituteEscaped(rest: string, m: map<string, string>)
    ensures SafeSubstitute("$$" + rest, m) == "$" + SafeSubstitute(rest, m)
  {
    SubstituteFirst("$$" + rest, Escaped, rest, m);
  }

  /** A `$` that starts no valid form is kept, and scanning resumes right after it. */
  lemma SubstituteStray(rest: string, m: map<string, string>)
    requires rest == [] || (rest[0] != '$' && !IsNameStart(rest[0]) && forall j :: !BracedForm(rest, j))
    ensures SafeSubstitute("$" + rest, m) == "$" + SafeSubstitute(rest, m)
  {
    var t := "$" + rest;
    assert t[1..] == rest;
    if rest != [] {
      assert BracedLength(rest) == 0;
    }
    SubstituteFirst(t, Stray, rest, m);
  }

  /** All four forms in one template: a bound `$a`, an escape, a literal run, a
      bound `${c}`, and a `$` before a character that starts no name. */
  lemma SubstituteFourForms(a: string, b: string, c: string, d: string, m: map<string, string>)
    requires IsName(a) && IsName(c) && a in m && c in m
    requires '$' !in b && '$' !in d && d != [] && !IsNameStart(d[0]) && d[0] != '{'
    ensures SafeSubstitute("$" + a + ("$$" + (b + ("${" + c + "}" + ("$" + d)))), m)
         == m[a] + ("$" + (b + (m[c] + ("$" + d))))
  {
    SubstituteNothing(m);
    assert d + "" == d;
    SubstituteLiteral(d, "", m);
    SubstituteStray(d, m);
    SubstituteBraced(c, "$" + d, m);
    SubstituteLiteral(b, "${" + c + "}" + ("$" + d), m);
    SubstituteEscaped(b + ("${" + c + "}" + ("$" + d)), m);
    SubstituteNamed(a, "$$" + (b + ("${" + c + "}" + ("$" + d))), m);
  }

  /** `$a$$b${c}$1` with `a` bound to `X` and `c` to `Y` gives `X$bY$1`. */
  lemma SubstituteExample(t: string, m: map<string, string>)
    requires t == "$a$$b${c}$1" && m == map["a" := "X", "c" := "Y"]
    ensures SafeSubstitute(t, m) == "X" + ("$" + ("b" + ("Y" + ("$" + "1"))))
  {
    assert t == "$" + "a" + ("$$" + ("b" + ("${" + "c" + "}" + ("$" + "1"))));
    assert IsName("a") && IsName("c");
    SubstituteFourForms("a", "b", "c", "1", m);
  }

  /** A literal run followed by a `$name` placeholder. */
  lemma SubstituteLiteralThenNamed(p: string, name: string, rest: string, m: map<string, string>)
    requires '$' !in p && IsName(name) && EndsName(rest)
    ensures SafeSubstitute(p + ("$" + name + rest), m)
         == p + ((if name in m then m[name] else "$" + name) + SafeSubstitute(rest, m))
  {
    SubstituteLiteral(p, "$" + name + rest, m);
    SubstituteNamed(name, rest, m);
  }

  /** One bound `$name` placeholder between literal runs: the shape of the
      count, describe and load statements. */
  lemma SubstituteOneNamed(p1: string, n1: string, p2: string, m: map<string, string>)
    requires '$' !in p1 && '$' !in p2
    requires IsName(n1) && EndsName(p2)
    requires n1 in m
    ensures SafeSubstitute(p1 + ("$" + n1 + p2), m) == p1 + (m[n1] + p2)
  {
    SubstituteLiteralThenNamed(p1, n1, p2, m);
    assert p2 + "" == p2;
    SubstituteLiteral(p2, "", m);
    SubstituteNothing(m);
  }

  /** Two bound `$name` placeholders between literal runs: the shape of the
      table and export statements. */
  lemma SubstituteTwoNamed(p1: string, n1: string, p2: string, n2: string, p3: string, m: map<string, string>)
    requires '$' !in p1 && '$' !in p2 && '$' !in p3
    requires IsName(n1) && IsName(n2) && EndsName(p2) && EndsName(p3)
    requires n1 in m && n2 in m
    ensures SafeSubstitute(p1 + ("$" + n1 + (p2 + ("$" + n2 + p3))), m) == p1 + (m[n1] + (p2 + (m[n2] + p3)))
  {
    var tail := p2 + ("$" + n2 + p3);
    assert EndsName(tail) by {
      if p2 == [] {
        assert tail[0] == '$';
      } else {
        assert tail[0] == p2[0];
      }
    }
    SubstituteLiteralThenNamed(p1, n1, tail, m);
    SubstituteOneNamed(p2, n2, p3, m);
  }
}
