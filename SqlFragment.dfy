/** SQL fragments (`SQL` objects: a template plus keyword bindings) and the
    compiler `sql_to_string` that flattens a fragment tree into one statement.

    The compiler first turns every binding, in order, into replacement text
      - a nested fragment: its own compiled text in parentheses,
      - a string: `'` + sqlescape(value) + `'`,
      - an int or a bool: Python's `str(value)`,
      - `None`: `null`,
      - anything else: the error "Invalid type for <key>",
    and then makes one `safe_substitute` pass over the template with those texts.

    `sqlescape` belongs to a foreign library; it is the parameter `esc` here, and
    nothing is assumed about what it does. */
module SqlFragment {
  import opened Template

  datatype Result<+T, +E> = Ok(value: T) | Err(error: E)

  /** A `SQL` object: the template and its keyword bindings, in keyword order. */
  datatype Sql = Sql(template: string, bindings: seq<Bind>)

  /** One keyword binding `key=value`. */
  datatype Bind = Bind(key: string, value: Binding)

  /** The kinds of value a binding can hold. A float is not modelled. */
  datatype Binding =
    | Nested(fragment: Sql)
    | Text(text: string)
    | Int(n: int)
    | Bool(b: bool)
    | Null
    | Unsupported(typeName: string)   // any other Python object

  /** The `ValueError` raised for a binding of an unsupported kind. */
  datatype CompileError = InvalidType(key: string)

  // ---------------------------------------------------------------------------
  // Python's str() of an int or a bool

  function DigitChar(d: nat): char
    requires d < 10
  {
    "0123456789"[d]
  }

  function DigitValue(c: char): int {
    c as int - '0' as int
  }

  /** Decimal digits of `n`, most significant first, without leading zeros. */
  function NatToString(n: nat): (s: string)
    ensures |s| > 0
    ensures forall i :: 0 <= i < |s| ==> '0' <= s[i] <= '9'
    ensures s[0] == '0' ==> n == 0 && s == "0"
    ensures n == 0 ==> s == "0"
  {
    if n < 10 then [DigitChar(n)] else NatToString(n / 10) + [DigitChar(n % 10)]
  }

  /** `str(i)` for a Python int. */
  function IntToString(i: int): string {
    if i < 0 then "-" + NatToString(-i) else NatToString(i)
  }

  /** `str(b)` for a Python bool. */
  function BoolToString(b: bool): string {
    if b then "True" else "False"
  }

  /** A bool is an int in Python, but `str` tells them apart: the text of a bool
      is never the text of an int. */
  lemma BoolTextIsNotIntText(b: bool, i: int)
    ensures BoolToString(b) != IntToString(i)
  {
    var s := IntToString(i);
    if i < 0 {
      assert s[0] == '-';
    } else {
      assert '0' <= s[0] <= '9';
    }
    assert BoolToString(b)[0] == (if b then 'T' else 'F');
  }

  /** Reads a string of decimal digits back. */
  function ParseDigits(s: string): int {
    if s == [] then 0 else 10 * ParseDigits(s[..|s| - 1]) + DigitValue(s[|s| - 1])
  }

  /** Reads back an optionally signed decimal numeral. */
  function ParseInt(s: string): int {
    if |s| > 0 && s[0] == '-' then -ParseDigits(s[1..]) else ParseDigits(s)
  }

  lemma {:induction false} NatToStringRoundTrip(n: nat)
    ensures ParseDigits(NatToString(n)) == n
  {
    var s := NatToString(n);
    if n >= 10 {
      NatToStringRoundTrip(n / 10);
      assert s[..|s| - 1] == NatToString(n / 10);
    }
  }

  /** `str` on ints loses nothing: reading the text back gives the int. */
  lemma IntToStringRoundTrip(i: int)
    ensures ParseInt(IntToString(i)) == i
  {
    var s := IntToString(i);
    if i < 0 {
      var digits := NatToString(-i);
      assert s == "-" + digits;
      assert s[0] == '-' && s[1..] == digits;
      NatToStringRoundTrip(-i);
      assert ParseInt(s) == -ParseDigits(digits);
    } else {
      assert s == NatToString(i);
      assert s[0] != '-';
      NatToStringRoundTrip(i);
    }
  }

  // ---------------------------------------------------------------------------
  // The compiler

  /** A string literal as the compiler writes it. */
  function Quote(esc: string -> string, s: string): string {
    "'" + esc(s) + "'"
  }

  /** A nested fragment's text as the compiler inserts it. */
  function Parens(s: string): string {
    "(" + s + ")"
  }

  /** `sql_to_string(s)`. */
  function Compile(s: Sql, esc: string -> string): Result<string, CompileError>
    decreases s, |s.bindings| + 1
  {
    match Replacements(s, |s.bindings|, esc)
    case Err(e) => Err(e)
    case Ok(m) => Ok(SafeSubstitute(s.template, m))
  }

  /** The `replacements` dictionary after the loop has seen the first `n` bindings,
      or the error raised by one of them. */
  function Replacements(s: Sql, n: nat, esc: string -> string): Result<map<string, string>, CompileError>
    requires n <= |s.bindings|
    decreases s, n
  {
    if n == 0 then Ok(map[])
    else
      match Replacements(s, n - 1, esc)
      case Err(e) => Err(e)
      case Ok(m) =>
        match Render(s.bindings[n - 1], esc)
        case Err(e) => Err(e)
        case Ok(text) => Ok(m[s.bindings[n - 1].key := text])
  }

  /** The replacement text of one binding. */
  function Render(b: Bind, esc: string -> string): Result<string, CompileError>
    decreases b
  {
    match b.value
    case Nested(inner) =>
      (match Compile(inner, esc)
       case Err(e) => Err(e)
       case Ok(c) => Ok(Parens(c)))
    case Text(t) => Ok(Quote(esc, t))
    case Int(i) => Ok(IntToString(i))
    case Bool(v) => Ok(BoolToString(v))
    case Null => Ok("null")
    case Unsupported(_) => Err(InvalidType(b.key))
  }

  /** `sql_to_string(s)` as the source computes it: a loop that fills the
      replacements dictionary, recursing into nested fragments, then one
      substitution pass. */
  method SqlToString(s: Sql, esc: string -> string) returns (r: Result<string, CompileError>)
    ensures r == Compile(s, esc)
    decreases s
  {
    var replacements: map<string, string> := map[];
    var i := 0;
    while i < |s.bindings|
      invariant 0 <= i <= |s.bindings|
      invariant Replacements(s, i, esc) == Ok(replacements)
    {
      var b := s.bindings[i];
      var text: string;
      match b.value {
        case Nested(inner) =>
          var c := SqlToString(inner, esc);
          if c.Err? {
            ErrorPersists(s, i + 1, esc);
            return Err(c.error);
          }
          text := Parens(c.value);
        case Text(t) =>
          text := Quote(esc, t);
        case Int(n) =>
          text := IntToString(n);
        case Bool(v) =>
          text := BoolToString(v);
        case Null =>
          text := "null";
        case Unsupported(_) =>
          ErrorPersists(s, i + 1, esc);
          return Err(InvalidType(b.key));
      }
      replacements := replacements[b.key := text];
      i := i + 1;
    }
    return Ok(SafeSubstitute(s.template, replacements));
  }

  // ---------------------------------------------------------------------------
  // When compilation succeeds

  /** Every binding, at every depth, is of a supported kind. */
  predicate Supported(s: Sql)
    decreases s, 1
  {
    forall i :: 0 <= i < |s.bindings| ==> SupportedValue(s.bindings[i].value)
  }

  predicate SupportedValue(v: Binding)
    decreases v
  {
    match v
    case Nested(inner) => Supported(inner)
    case Unsupported(_) => false
    case _ => true
  }

  /** Once a binding fails, every longer prefix fails with the same error. */
  lemma {:induction false} ErrorPersists(s: Sql, n: nat, esc: string -> string)
    requires 0 < n <= |s.bindings|
    requires Replacements(s, n, esc).Err?
    ensures Compile(s, esc) == Err(Replacements(s, n, esc).error)
    decreases |s.bindings| - n
  {
    if n < |s.bindings| {
      ErrorPersists(s, n + 1, esc);
    }
  }

  lemma {:induction false} ReplacementsOkIff(s: Sql, n: nat, esc: string -> string)
    requires n <= |s.bindings|
    ensures Replacements(s, n, esc).Ok? <==> forall i :: 0 <= i < n ==> SupportedValue(s.bindings[i].value)
    decreases s, n
  {
    if n > 0 {
      ReplacementsOkIff(s, n - 1, esc);
      RenderOkIff(s.bindings[n - 1], esc);
    }
  }

  lemma {:induction false} RenderOkIff(b: Bind, esc: string -> string)
    ensures Render(b, esc).Ok? <==> SupportedValue(b.value)
    decreases b
  {
    if b.value.Nested? {
      CompileOkIff(b.value.fragment, esc);
    }
  }

  /** Compilation fails exactly when some binding, at any depth, is of an
      unsupported kind. */
  lemma {:induction false} CompileOkIff(s: Sql, esc: string -> string)
    ensures Compile(s, esc).Ok? <==> Supported(s)
    decreases s, |s.bindings| + 1
  {
    ReplacementsOkIff(s, |s.bindings|, esc);
  }

  /** The first unsupported binding, in keyword order, decides the error: an
      unsupported value raises for its own key, a nested fragment passes on its
      own error. */
  lemma {:induction false} FirstFailureRaises(s: Sql, i: nat, esc: string -> string)
    requires i < |s.bindings|
    requires forall j :: 0 <= j < i ==> SupportedValue(s.bindings[j].value)
    requires !SupportedValue(s.bindings[i].value)
    ensures Compile(s, esc).Err?
    ensures s.bindings[i].value.Nested? ==>
      Compile(s.bindings[i].value.fragment, esc).Err? &&
      Compile(s, esc).error == Compile(s.bindings[i].value.fragment, esc).error
    ensures !s.bindings[i].value.Nested? ==> Compile(s, esc).error == InvalidType(s.bindings[i].key)
  {
    ReplacementsOkIff(s, i, esc);
    RenderOkIff(s.bindings[i], esc);
    if s.bindings[i].value.Nested? {
      CompileOkIff(s.bindings[i].value.fragment, esc);
    }
    ErrorPersists(s, i + 1, esc);
  }

  lemma {:induction false} ReplacementsIgnoreTemplate(t1: string, t2: string, bs: seq<Bind>, n: nat, esc: string -> string)
    requires n <= |bs|
    ensures Replacements(Sql(t1, bs), n, esc) == Replacements(Sql(t2, bs), n, esc)
  {
    if n > 0 {
      ReplacementsIgnoreTemplate(t1, t2, bs, n - 1, esc);
    }
  }

  /** Every binding is converted before any substitution, so an unsupported
      binding makes compilation fail whatever the template says, even when no
      placeholder names its key. */
  lemma ErrorIgnoresTemplate(t1: string, t2: string, bs: seq<Bind>, esc: string -> string)
    requires Compile(Sql(t1, bs), esc).Err?
    ensures Compile(Sql(t2, bs), esc) == Compile(Sql(t1, bs), esc)
  {
    ReplacementsIgnoreTemplate(t1, t2, bs, |bs|, esc);
  }

  // ---------------------------------------------------------------------------
  // What each binding is replaced by

  /** Among the first `n` bindings, binding `i` is the last of its key, so it is
      the one the dictionary keeps. */
  predicate LastOfKey(bs: seq<Bind>, n: nat, i: int) {
    0 <= i < n <= |bs| && forall j :: i < j < n ==> bs[j].key != bs[i].key
  }

  /** The keys of a binding list. */
  function Keys(bs: seq<Bind>): set<string> {
    set i | 0 <= i < |bs| :: bs[i].key
  }

  /** The text binding `b` is replaced by when it compiles. */
  predicate RenderedAs(b: Binding, esc: string -> string, text: string) {
    match b
    case Nested(inner) => Compile(inner, esc).Ok? && text == Parens(Compile(inner, esc).value)
    case Text(t) => text == Quote(esc, t)
    case Int(n) => text == IntToString(n)
    case Bool(v) => text == BoolToString(v)
    case Null => text == "null"
    case Unsupported(_) => false
  }

  /** A binding that renders is replaced by the text its kind calls for; one that
      does not is an unsupported value, failing for its own key, or a nested
      fragment that fails with its own error. */
  lemma RenderMeaning(b: Bind, esc: string -> string)
    ensures Render(b, esc).Ok? ==> RenderedAs(b.value, esc, Render(b, esc).value)
    ensures Render(b, esc).Err? ==>
      (b.value.Unsupported? && Render(b, esc).error == InvalidType(b.key)) ||
      (b.value.Nested? && Compile(b.value.fragment, esc).Err? &&
       Render(b, esc).error == Compile(b.value.fragment, esc).error)
  {
  }

  lemma {:induction false} ReplacementsKeys(s: Sql, n: nat, esc: string -> string)
    requires n <= |s.bindings|
    requires Replacements(s, n, esc).Ok?
    ensures Replacements(s, n, esc).value.Keys == Keys(s.bindings[..n])
  {
    if n > 0 {
      ReplacementsKeys(s, n - 1, esc);
      var bs := s.bindings;
      assert bs[..n] == bs[..n - 1] + [bs[n - 1]];
      assert Keys(bs[..n]) == Keys(bs[..n - 1]) + {bs[n - 1].key} by {
        forall k | k in Keys(bs[..n]) ensures k in Keys(bs[..n - 1]) + {bs[n - 1].key} {
          var i :| 0 <= i < n && bs[..n][i].key == k;
          if i < n - 1 { assert bs[..n - 1][i].key == k; }
        }
        forall k | k in Keys(bs[..n - 1]) ensures k in Keys(bs[..n]) {
          var i :| 0 <= i < n - 1 && bs[..n - 1][i].key == k;
          assert bs[..n][i].key == k;
        }
      }
    }
  }

  lemma {:induction false} ReplacementsContents(s: Sql, n: nat, esc: string -> string)
    requires n <= |s.bindings|
    requires Replacements(s, n, esc).Ok?
    ensures forall i :: LastOfKey(s.bindings, n, i) ==>
      s.bindings[i].key in Replacements(s, n, esc).value &&
      RenderedAs(s.bindings[i].value, esc, Replacements(s, n, esc).value[s.bindings[i].key])
  {
    if n > 0 {
      ReplacementsContents(s, n - 1, esc);
      var bs := s.bindings;
      var b := bs[n - 1];
      var m0 := Replacements(s, n - 1, esc).value;
      var m := Replacements(s, n, esc).value;
      RenderMeaning(b, esc);
      assert m == m0[b.key := Render(b, esc).value];
      forall i | LastOfKey(bs, n, i)
        ensures bs[i].key in m && RenderedAs(bs[i].value, esc, m[bs[i].key])
      {
        if i < n - 1 {
          assert LastOfKey(bs, n - 1, i);
          assert bs[n - 1].key != bs[i].key;
        }
      }
    }
  }

  /** The dictionary the compiler substitutes with, when compilation succeeds. */
  function ReplacementMap(s: Sql, esc: string -> string): map<string, string>
    requires Compile(s, esc).Ok?
  {
    Replacements(s, |s.bindings|, esc).value
  }

  /** A successful compilation substitutes the template with a dictionary that
      holds exactly the binding keys, each mapped to its binding's text: a nested
      fragment's own compiled text in parentheses, a string quoted after
      escaping, an int or bool as `str` writes it, `None` as `null`. */
  lemma CompiledReplacements(s: Sql, esc: string -> string)
    requires Compile(s, esc).Ok?
    ensures Compile(s, esc).value == SafeSubstitute(s.template, ReplacementMap(s, esc))
    ensures ReplacementMap(s, esc).Keys == Keys(s.bindings)
    ensures forall i :: LastOfKey(s.bindings, |s.bindings|, i) ==>
      s.bindings[i].key in ReplacementMap(s, esc) &&
      RenderedAs(s.bindings[i].value, esc, ReplacementMap(s, esc)[s.bindings[i].key])
  {
    ReplacementsKeys(s, |s.bindings|, esc);
    ReplacementsContents(s, |s.bindings|, esc);
    assert s.bindings[..|s.bindings|] == s.bindings;
  }

  /** A fragment bound under `$name` ends up in its parent as its own compiled
      text in parentheses, at the place of the placeholder; that text is not
      scanned again, so a `$` in it stays as it is. */
  lemma NestedFragmentInserted(p: string, name: string, rest: string, inner: Sql, esc: string -> string)
    requires '$' !in p && IsName(name) && EndsName(rest)
    requires Compile(inner, esc).Ok?
    ensures var parent := Sql(p + ("$" + name + rest), [Bind(name, Nested(inner))]);
      var text := Parens(Compile(inner, esc).value);
      Compile(parent, esc) == Ok(p + (text + SafeSubstitute(rest, map[name := text])))
  {
    var parent := Sql(p + ("$" + name + rest), [Bind(name, Nested(inner))]);
    var text := Parens(Compile(inner, esc).value);
    assert Render(parent.bindings[0], esc) == Ok(text);
    assert Replacements(parent, 0, esc) == Ok(map[]);
    assert Replacements(parent, 1, esc) == Ok(map[name := text]);
    SubstituteLiteralThenNamed(p, name, rest, map[name := text]);
  }
}
