/** JSON records as the store writes them, and the one structural fact reading back relies on: no
    proper prefix of an object's text is itself balanced. Each character stands for one byte of the
    UTF-8 encoding. */
module Json {

  /** `Atom` covers numbers, `true`, `false`, `null` and the non-finite number names; a number stands as
      the text it is written with. */
  datatype Json = Atom(text: string) | Str(s: string) | Arr(items: seq<Json>) | Obj(fields: seq<Field>)
  datatype Field = Field(name: string, value: Json)

  // ---- writing ----

  function Hex(n: nat): char
    requires n < 16
  {
    "0123456789abcdef"[n]
  }

  /** How one byte of a string is written: quotes, backslashes and control characters are escaped. */
  function EscapeChar(c: char): (t: string) {
    if c == '\"' then ['\\', '\"']
    else if c == '\\' then ['\\', '\\']
    else if c == '\n' then ['\\', 'n']
    else if c == '\r' then ['\\', 'r']
    else if c == '\t' then ['\\', 't']
    else if c as int == 8 then ['\\', 'b']
    else if c as int == 12 then ['\\', 'f']
    else if c as int < 32 then ['\\', 'u', '0', '0', Hex(c as int / 16), Hex(c as int % 16)]
    else [c]
  }

  function Escape(s: string): string {
    if s == "" then "" else EscapeChar(s[0]) + Escape(s[1..])
  }

  function Quote(s: string): string {
    ['\"'] + Escape(s) + ['\"']
  }

  function Dumps(j: Json): (t: string)
    decreases j
  {
    match j
    case Atom(text) => text
    case Str(s) => Quote(s)
    case Arr(items) => "[" + DumpsItems(items) + "]"
    case Obj(fields) => "{" + DumpsFields(fields) + "}"
  }

  function DumpsItems(items: seq<Json>): string
    decreases items
  {
    if items == [] then ""
    else if |items| == 1 then Dumps(items[0])
    else Dumps(items[0]) + ", " + DumpsItems(items[1..])
  }

  function DumpsFields(fields: seq<Field>): string
    decreases fields
  {
    if fields == [] then ""
    else if |fields| == 1 then DumpsField(fields[0])
    else DumpsField(fields[0]) + ", " + DumpsFields(fields[1..])
  }

  function DumpsField(f: Field): string
    decreases f
  {
    Quote(f.name) + ": " + Dumps(f.value)
  }

  /** Printable characters but the quote and the backslash stand for themselves. */
  predicate Printable(s: string) {
    forall i :: 0 <= i < |s| ==> s[i] as int >= 32 && s[i] != '\"' && s[i] != '\\'
  }

  lemma {:induction false} PrintableStays(s: string)
    requires Printable(s)
    ensures Escape(s) == s
  {
    if s != "" { PrintableStays(s[1..]); }
  }

  /** How a field looks in the file, and a record of two. */
  lemma FieldText(name: string, value: Json)
    requires Printable(name)
    ensures DumpsField(Field(name, value)) == ['\"'] + name + ['\"'] + ": " + Dumps(value)
  {
    PrintableStays(name);
  }

  lemma RecordText(f: Field, g: Field)
    ensures Dumps(Obj([f, g])) == "{" + (DumpsField(f) + ", " + DumpsField(g)) + "}"
  {
    assert [f, g][1..] == [g];
    assert DumpsFields([g]) == DumpsField(g);
  }

  // ---- well-formed values ----

  predicate Digit(c: char) {
    '0' <= c <= '9'
  }

  /** Length of the leading run of digits. */
  function Digits(t: string): (n: nat)
    ensures n <= |t| && forall i :: 0 <= i < n ==> Digit(t[i])
  {
    if t == "" || !Digit(t[0]) then 0 else 1 + Digits(t[1..])
  }

  predicate Exponent(t: string) {
    t == "" ||
      ((t[0] == 'e' || t[0] == 'E') &&
       var u := if |t| > 1 && (t[1] == '+' || t[1] == '-') then t[2..] else t[1..];
       u != "" && Digits(u) == |u|)
  }

  predicate Fraction(t: string) {
    if t != "" && t[0] == '.' then Digits(t[1..]) > 0 && Exponent(t[1 + Digits(t[1..])..]) else Exponent(t)
  }

  /** A number as section 6 of RFC 8259 writes it. */
  predicate Number(t: string) {
    var u := if t != "" && t[0] == '-' then t[1..] else t;
    && Digits(u) > 0 && (u[0] == '0' ==> Digits(u) == 1)
    && Fraction(u[Digits(u)..])
  }

  /** Numbers, the three literal names, and the non-finite numbers Python also writes and reads. */
  predicate Scalar(t: string) {
    t in {"null", "true", "false", "NaN", "Infinity", "-Infinity"} || Number(t)
  }

  /** The characters scalars are made of. */
  predicate Bare(c: char) {
    Digit(c) || 'a' <= c <= 'z' || 'A' <= c <= 'Z' || c == '+' || c == '-' || c == '.'
  }

  predicate AllBare(t: string) {
    forall i :: 0 <= i < |t| ==> Bare(t[i])
  }

  lemma ScalarBare(t: string)
    requires Scalar(t)
    ensures t != "" && AllBare(t)
  {
    if Number(t) { NumberBare(t); } else { LiteralBare(t); }
  }

  lemma LiteralBare(t: string)
    requires t in {"null", "true", "false", "NaN", "Infinity", "-Infinity"}
    ensures t != "" && AllBare(t)
  {}

  lemma NumberBare(t: string)
    requires Number(t)
    ensures t != "" && AllBare(t)
  {
    if t[0] == '-' {
      UnsignedBare(t[1..]);
      Behind(t, 1);
    } else {
      UnsignedBare(t);
    }
  }

  lemma UnsignedBare(u: string)
    requires Fraction(u[Digits(u)..])
    ensures AllBare(u)
  {
    FractionBare(u[Digits(u)..]);
    Behind(u, Digits(u));
  }

  /** A first part of bare characters and a bare rest. */
  lemma Behind(t: string, n: nat)
    requires n <= |t| && AllBare(t[n..]) && forall i :: 0 <= i < n ==> Bare(t[i])
    ensures AllBare(t)
  {
    forall i | n <= i < |t| ensures Bare(t[i]) { assert t[i] == t[n..][i - n]; }
  }

  lemma FractionBare(t: string)
    requires Fraction(t)
    ensures AllBare(t)
  {
    if t != "" && t[0] == '.' {
      var n := 1 + Digits(t[1..]);
      ExponentBare(t[n..]);
      forall i | 0 <= i < |t| ensures Bare(t[i]) {
        if 0 < i < n { assert t[i] == t[1..][i - 1]; }
        if i >= n { assert t[i] == t[n..][i - n]; }
      }
    } else {
      ExponentBare(t);
    }
  }

  lemma ExponentBare(t: string)
    requires Exponent(t)
    ensures AllBare(t)
  {
    if t != "" {
      var k := if |t| > 1 && (t[1] == '+' || t[1] == '-') then 2 else 1;
      forall i | 0 <= i < |t| ensures Bare(t[i]) {
        if i >= k { assert t[i] == t[k..][i - k]; }
      }
    }
  }

  /** Characters that mean something to the scanner, or end a line. */
  predicate Structural(c: char) {
    c == '\"' || c == '\\' || c == '{' || c == '}' || c == '[' || c == ']' || c as int < 32
  }

  predicate Plain(t: string) {
    forall i :: 0 <= i < |t| ==> !Structural(t[i])
  }

  ghost predicate DistinctNames(fields: seq<Field>) {
    forall a, b :: 0 <= a < b < |fields| ==> fields[a].name != fields[b].name
  }

  /** What a Python value of strings, numbers, lists and dictionaries is written from: every atom is a
      scalar and no object at any depth repeats a name. */
  ghost predicate Wf(j: Json)
    decreases j
  {
    match j
    case Atom(text) => Scalar(text)
    case Str(_) => true
    case Arr(items) => forall x :: x in items ==> Wf(x)
    case Obj(fields) => DistinctNames(fields) && forall f :: f in fields ==> Wf(f.value)
  }

  // ---- scanning ----

  /** Nesting depth, whether inside a string, and whether the last character was an escape. */
  datatype Scan = Scan(depth: int, inStr: bool, esc: bool)

  const START := Scan(0, false, false)

  function Advance(st: Scan, c: char): Scan {
    if st.inStr then
      if st.esc then st.(esc := false)
      else if c == '\\' then st.(esc := true)
      else if c == '\"' then st.(inStr := false)
      else st
    else if c == '\"' then st.(inStr := true)
    else if c == '{' || c == '[' then st.(depth := st.depth + 1)
    else if c == '}' || c == ']' then st.(depth := st.depth - 1)
    else st
  }

  function ScanText(st: Scan, t: string): Scan
    decreases |t|
  {
    if t == "" then st else ScanText(Advance(st, t[0]), t[1..])
  }

  /** Every bracket is closed and no string is open: any text a JSON parser accepts is balanced
      (RFC 8259, sections 4, 5 and 7). */
  predicate Balanced(t: string) {
    ScanText(START, t) == START
  }

  lemma {:induction false} ScanAppend(st: Scan, a: string, b: string)
    ensures ScanText(st, a + b) == ScanText(ScanText(st, a), b)
    decreases |a|
  {
    if a == "" {
      assert a + b == b;
    } else {
      assert (a + b)[1..] == a[1..] + b;
      ScanAppend(Advance(st, a[0]), a[1..], b);
    }
  }

  /** From depth `d` outside strings, `t` never goes below `d` and ends back at `d`. */
  ghost predicate Nested(t: string, d: int) {
    && ScanText(Scan(d, false, false), t) == Scan(d, false, false)
    && forall k :: 0 <= k <= |t| ==> DepthAt(t, d, k) >= d
  }

  ghost function DepthAt(t: string, d: int, k: nat): int
    requires k <= |t|
  {
    ScanText(Scan(d, false, false), t[..k]).depth
  }

  lemma NestedAppend(a: string, b: string, d: int)
    requires Nested(a, d) && Nested(b, d)
    ensures Nested(a + b, d)
  {
    var st := Scan(d, false, false);
    ScanAppend(st, a, b);
    forall k | 0 <= k <= |a + b| ensures DepthAt(a + b, d, k) >= d {
      if k <= |a| {
        assert (a + b)[..k] == a[..k];
        assert DepthAt(a, d, k) >= d;
      } else {
        assert (a + b)[..k] == a + b[..k - |a|];
        ScanAppend(st, a, b[..k - |a|]);
        assert DepthAt(b, d, k - |a|) >= d;
      }
    }
  }

  lemma {:induction false} NestedPlain(t: string, d: int)
    requires Plain(t)
    ensures Nested(t, d)
  {
    if t == "" {
      forall k | 0 <= k <= |t| ensures DepthAt(t, d, k) >= d {}
    } else {
      NestedPlain(t[1..], d);
      forall k | 0 <= k <= |t| ensures DepthAt(t, d, k) >= d {
        if k > 0 {
          assert t[..k][1..] == t[1..][..k - 1];
          assert DepthAt(t[1..], d, k - 1) >= d;
        }
      }
    }
  }

  /** Inside a string, escaped text keeps the scanner inside the string at the same depth. */
  lemma {:induction false} EscapeStays(s: string, d: int, k: nat)
    requires k <= |Escape(s)|
    ensures ScanText(Scan(d, true, false), Escape(s)) == Scan(d, true, false)
    ensures ScanText(Scan(d, true, false), Escape(s)[..k]).depth == d
  {
    if s != "" {
      var e, rest := EscapeChar(s[0]), Escape(s[1..]);
      var st := Scan(d, true, false);
      EscapeCharStays(s[0], d, if k <= |e| then k else |e|);
      EscapeStays(s[1..], d, if k <= |e| then 0 else k - |e|);
      ScanAppend(st, e, rest);
      if k <= |e| {
        assert (e + rest)[..k] == e[..k];
      } else {
        assert (e + rest)[..k] == e + rest[..k - |e|];
        ScanAppend(st, e, rest[..k - |e|]);
      }
    }
  }

  lemma EscapeCharStays(c: char, d: int, k: nat)
    requires k <= |EscapeChar(c)|
    ensures ScanText(Scan(d, true, false), EscapeChar(c)) == Scan(d, true, false)
    ensures ScanText(Scan(d, true, false), EscapeChar(c)[..k]).depth == d
  {
    var e := EscapeChar(c);
    if |e| == 1 {
      QuietInString(d, e);
      QuietInString(d, e[..k]);
    } else {
      EscapedThenQuiet(d, e[1], e[2..]);
      assert e == ['\\', e[1]] + e[2..];
      if k >= 2 {
        assert e[..k] == ['\\', e[1]] + e[2..k];
        EscapedThenQuiet(d, e[1], e[2..k]);
      } else if k == 1 {
        assert e[..1] == ['\\'];
        assert ['\\'][1..] == "";
      }
    }
  }

  lemma EscapedThenQuiet(d: int, c: char, t: string)
    requires forall i :: 0 <= i < |t| ==> t[i] != '\\' && t[i] != '\"'
    ensures ScanText(Scan(d, true, false), ['\\', c] + t) == Scan(d, true, false)
  {
    var st := Scan(d, true, false);
    ScanAppend(st, ['\\', c], t);
    assert ['\\', c][1..] == [c] && [c][1..] == "";
    assert ScanText(Scan(d, true, true), [c]) == ScanText(Advance(Scan(d, true, true), c), "");
    QuietInString(d, t);
  }

  lemma {:induction false} QuietInString(d: int, t: string)
    requires forall i :: 0 <= i < |t| ==> t[i] != '\\' && t[i] != '\"'
    ensures ScanText(Scan(d, true, false), t) == Scan(d, true, false)
    decreases |t|
  {
    if t != "" { QuietInString(d, t[1..]); }
  }

  lemma NestedQuote(s: string, d: int)
    ensures Nested(Quote(s), d)
  {
    var e, q, st := Escape(s), Quote(s), Scan(d, false, false);
    assert ['\"'][1..] == "";
    EscapeStays(s, d, 0);
    ScanAppend(st, ['\"'], e);
    ScanAppend(st, ['\"'] + e, ['\"']);
    forall k | 0 <= k <= |q| ensures DepthAt(q, d, k) >= d {
      if 0 < k < |q| {
        assert q[..k] == ['\"'] + e[..k - 1];
        ScanAppend(st, ['\"'], e[..k - 1]);
        EscapeStays(s, d, k - 1);
      } else if k == |q| {
        assert q[..k] == q;
      }
    }
  }

  /** Bracketing nested text gives nested text that stays above `d` until its last character. */
  lemma NestedBracket(open: char, t: string, close: char, d: int)
    requires (open == '{' && close == '}') || (open == '[' && close == ']')
    requires Nested(t, d + 1)
    ensures Nested([open] + t + [close], d)
    ensures forall k :: 0 < k <= |t| + 1 ==> DepthAt([open] + t + [close], d, k) >= d + 1
  {
    var b, st := [open] + t + [close], Scan(d, false, false);
    assert [open][1..] == "" && [close][1..] == "";
    ScanAppend(st, [open], t);
    ScanAppend(st, [open] + t, [close]);
    forall k | 0 < k <= |t| + 1 ensures DepthAt(b, d, k) >= d + 1 {
      assert b[..k] == [open] + t[..k - 1];
      ScanAppend(st, [open], t[..k - 1]);
      assert DepthAt(t, d + 1, k - 1) >= d + 1;
    }
    assert b[..|b|] == b;
  }

  lemma {:induction false} NestedDumps(j: Json, d: int)
    requires Wf(j)
    ensures Nested(Dumps(j), d)
    decreases j
  {
    match j
    case Atom(text) =>
      ScalarBare(text);
      NestedPlain(text, d);
    case Str(s) => NestedQuote(s, d);
    case Arr(items) =>
      NestedItems(items, d + 1);
      NestedBracket('[', DumpsItems(items), ']', d);
    case Obj(fields) =>
      NestedFields(fields, d + 1);
      NestedBracket('{', DumpsFields(fields), '}', d);
  }

  lemma {:induction false} NestedItems(items: seq<Json>, d: int)
    requires forall x :: x in items ==> Wf(x)
    ensures Nested(DumpsItems(items), d)
    decreases items
  {
    NestedPlain(", ", d);
    NestedPlain("", d);
    if |items| == 1 {
      NestedDumps(items[0], d);
    } else if items != [] {
      NestedDumps(items[0], d);
      NestedItems(items[1..], d);
      NestedAppend(Dumps(items[0]), ", ", d);
      NestedAppend(Dumps(items[0]) + ", ", DumpsItems(items[1..]), d);
    }
  }

  lemma {:induction false} NestedFields(fields: seq<Field>, d: int)
    requires forall f :: f in fields ==> Wf(f.value)
    ensures Nested(DumpsFields(fields), d)
    decreases fields
  {
    NestedPlain(", ", d);
    NestedPlain("", d);
    if |fields| == 1 {
      NestedField(fields[0], d);
    } else if fields != [] {
      NestedField(fields[0], d);
      NestedFields(fields[1..], d);
      NestedAppend(DumpsField(fields[0]), ", ", d);
      NestedAppend(DumpsField(fields[0]) + ", ", DumpsFields(fields[1..]), d);
    }
  }

  lemma {:induction false} NestedField(f: Field, d: int)
    requires Wf(f.value)
    ensures Nested(DumpsField(f), d)
    decreases f
  {
    NestedPlain(": ", d);
    NestedQuote(f.name, d);
    NestedDumps(f.value, d);
    NestedAppend(Quote(f.name), ": ", d);
    NestedAppend(Quote(f.name) + ": ", Dumps(f.value), d);
  }

  /** A record's text is balanced, and no proper non-empty prefix of it is: a torn record can never
      be mistaken for a whole one. */
  lemma TornRecordIsUnbalanced(fields: seq<Field>, k: nat)
    requires Wf(Obj(fields)) && k <= |Dumps(Obj(fields))|
    ensures k > 0 ==> (Balanced(Dumps(Obj(fields))[..k]) <==> k == |Dumps(Obj(fields))|)
  {
    var t := Dumps(Obj(fields));
    NestedFields(fields, 1);
    NestedBracket('{', DumpsFields(fields), '}', 0);
    assert t == ['{'] + DumpsFields(fields) + ['}'];
    if 0 < k < |t| {
      assert DepthAt(t, 0, k) >= 1;
    } else if k == |t| {
      assert t[..k] == t;
    }
  }

  // ---- one line ----

  predicate OneLine(t: string) {
    forall i :: 0 <= i < |t| ==> t[i] as int >= 32
  }

  lemma {:induction false} EscapeOneLine(s: string)
    ensures OneLine(Escape(s))
  {
    if s != "" { EscapeOneLine(s[1..]); }
  }

  /** A record's text holds no control character, hence no line break, whatever its strings hold. */
  lemma {:induction false} DumpsOneLine(j: Json)
    requires Wf(j)
    ensures OneLine(Dumps(j))
    decreases j
  {
    match j
    case Atom(text) => ScalarBare(text);
    case Str(s) => EscapeOneLine(s);
    case Arr(items) => ItemsOneLine(items);
    case Obj(fields) => FieldsOneLine(fields);
  }

  lemma {:induction false} ItemsOneLine(items: seq<Json>)
    requires forall x :: x in items ==> Wf(x)
    ensures OneLine(DumpsItems(items))
    decreases items
  {
    if items != [] {
      DumpsOneLine(items[0]);
      ItemsOneLine(items[1..]);
    }
  }

  lemma {:induction false} FieldsOneLine(fields: seq<Field>)
    requires forall f :: f in fields ==> Wf(f.value)
    ensures OneLine(DumpsFields(fields))
    decreases fields
  {
    if fields != [] {
      FieldOneLine(fields[0]);
      FieldsOneLine(fields[1..]);
    }
  }

  lemma {:induction false} FieldOneLine(f: Field)
    requires Wf(f.value)
    ensures OneLine(DumpsField(f))
    decreases f
  {
    EscapeOneLine(f.name);
    DumpsOneLine(f.value);
  }
}
