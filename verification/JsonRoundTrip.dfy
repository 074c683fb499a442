/** The reader against the writer: reading undoes writing on every well-formed value, and whatever text the
    reader accepts is balanced. */
module JsonRoundTrip {
  import opened Options
  import opened Seqs
  import opened Json
  import opened JsonReader

  // ---- reading back ----

  lemma HexBack(n: nat)
    requires n < 16
    ensures HexValue(Hex(n)) == n
  {}

  /** One escaped character reads back as itself, in front of whatever follows. */
  lemma EscapeCharBack(c: char, t: string)
    ensures ReadString(EscapeChar(c) + t) == Prepend([c], ReadString(t))
  {
    var e := EscapeChar(c);
    assert (e + t)[|e|..] == t;
    if |e| == 6 {
      HexBack(c as int / 16);
      HexBack(c as int % 16);
      assert HexValue('0') == 0;
      assert (e + t)[2..6] == e[2..6];
      assert Unit(e[2..6]) == c as int;
    }
  }

  lemma {:induction false} StringBack(s: string, rest: string)
    ensures ReadString(Escape(s) + ['\"'] + rest) == Part(s, rest)
  {
    var tail := ['\"'] + rest;
    Assoc(Escape(s), ['\"'], rest);
    if s == "" {
      assert "" + tail == tail && tail[1..] == rest;
    } else {
      StringBack(s[1..], rest);
      Assoc(Escape(s[1..]), ['\"'], rest);
      Assoc(EscapeChar(s[0]), Escape(s[1..]), tail);
      EscapeCharBack(s[0], Escape(s[1..]) + tail);
      assert [s[0]] + s[1..] == s;
    }
  }

  lemma QuoteBack(s: string, rest: string)
    ensures var t := Quote(s) + rest; t != "" && t[0] == '\"' && ReadString(t[1..]) == Part(s, rest)
  {
    StringBack(s, rest);
    assert (Quote(s) + rest)[1..] == Escape(s) + ['\"'] + rest;
  }

  lemma {:induction false} BareRun(t: string, rest: string)
    requires AllBare(t) && (rest == "" || !Bare(rest[0]))
    ensures BareLength(t + rest) == |t|
  {
    if t == "" {
      assert t + rest == rest;
    } else {
      BareRun(t[1..], rest);
      assert (t + rest)[1..] == t[1..] + rest;
    }
  }

  /** What follows a value does not extend it. */
  predicate Ends(rest: string) {
    rest == "" || !Bare(rest[0])
  }

  /** A value's text opens with a character that is neither blank nor a closing bracket. */
  lemma Opens(j: Json)
    requires Wf(j)
    ensures Dumps(j) != "" && !Blank(Dumps(j)[0]) && Dumps(j)[0] != ']' && Dumps(j)[0] != '}'
  {
    if j.Atom? { ScalarBare(j.text); }
  }

  // ---- one step of the reader ----

  lemma ReadArr(t: string, u: string, xs: seq<Json>, rest: string)
    requires t != "" && t[0] == '[' && SkipBlanks(t[1..]) == u && u != "" && u[0] != ']'
             && ReadItems(u) == Part(xs, rest)
    ensures ReadValue(t) == Part(Arr(xs), rest)
  {}

  lemma ReadObj(t: string, u: string, fs: seq<Field>, rest: string)
    requires t != "" && t[0] == '{' && SkipBlanks(t[1..]) == u && u != "" && u[0] != '}'
             && ReadFields(u) == Part(fs, rest)
    ensures ReadValue(t) == Part(Obj(Collapsed(fs)), rest)
  {}

  lemma ReadLastItem(t: string, x: Json, rest: string)
    requires ReadValue(t) == Part(x, "]" + rest)
    ensures ReadItems(t) == Part([x], rest)
  {
    assert ("]" + rest)[1..] == rest;
  }

  lemma ReadMoreItems(t: string, x: Json, more: string, xs: seq<Json>, rest: string)
    requires ReadValue(t) == Part(x, ", " + more) && SkipBlanks(more) == more && ReadItems(more) == Part(xs, rest)
    ensures ReadItems(t) == Part([x] + xs, rest)
  {
    AfterComma(more);
  }

  lemma ReadLastField(t: string, f: Field, rest: string)
    requires ReadField(t) == Part(f, "}" + rest)
    ensures ReadFields(t) == Part([f], rest)
  {
    assert ("}" + rest)[1..] == rest;
  }

  lemma ReadMoreFields(t: string, f: Field, more: string, fs: seq<Field>, rest: string)
    requires ReadField(t) == Part(f, ", " + more) && SkipBlanks(more) == more && ReadFields(more) == Part(fs, rest)
    ensures ReadFields(t) == Part([f] + fs, rest)
  {
    AfterComma(more);
  }

  lemma ReadNamed(t: string, name: string, v: string, value: Json, rest: string)
    requires t != "" && t[0] == '\"' && ReadString(t[1..]) == Part(name, ": " + v)
    requires SkipBlanks(v) == v && ReadValue(v) == Part(value, rest)
    ensures ReadField(t) == Part(Field(name, value), rest)
  {
    assert (": " + v)[1..] == " " + v && (" " + v)[1..] == v;
  }

  lemma AfterComma(t: string)
    requires SkipBlanks(t) == t
    ensures SkipBlanks(", " + t) == ", " + t && SkipBlanks((", " + t)[1..]) == t
  {
    assert (", " + t)[1..] == " " + t && (" " + t)[1..] == t;
  }

  // ---- how the text of a value continues ----

  lemma Bracketed(open: string, body: string, close: string, rest: string)
    requires |open| == 1
    ensures (open + body + close + rest)[1..] == body + (close + rest)
  {}

  lemma MoreText(x: string, more: string, close: string)
    ensures x + ", " + more + close == x + (", " + (more + close))
  {}

  // ---- reading undoes writing ----

  lemma AtomBack(text: string, rest: string)
    requires Scalar(text) && Ends(rest)
    ensures ReadValue(text + rest) == Part(Atom(text), rest)
  {
    ScalarBare(text);
    BareRun(text, rest);
    assert (text + rest)[..|text|] == text && (text + rest)[|text|..] == rest;
  }

  lemma EmptyBack(rest: string)
    ensures ReadValue("[" + "" + "]" + rest) == Part(Arr([]), rest)
    ensures ReadValue("{" + "" + "}" + rest) == Part(Obj([]), rest)
  {
    Bracketed("[", "", "]", rest);
    Bracketed("{", "", "}", rest);
    assert "" + ("]" + rest) == "]" + rest && ("]" + rest)[1..] == rest;
    assert "" + ("}" + rest) == "}" + rest && ("}" + rest)[1..] == rest;
  }

  /** Reading undoes writing, whatever follows. */
  lemma {:induction false} ValueBack(j: Json, rest: string)
    requires Wf(j) && Ends(rest)
    ensures ReadValue(Dumps(j) + rest) == Part(j, rest)
    decreases j
  {
    match j
    case Atom(text) => AtomBack(text, rest);
    case Str(s) => QuoteBack(s, rest);
    case Arr(items) =>
      if items == [] {
        EmptyBack(rest);
      } else {
        ItemsBack(items, rest);
        ItemsOpen(items, "]" + rest);
        Bracketed("[", DumpsItems(items), "]", rest);
        ReadArr(Dumps(j) + rest, DumpsItems(items) + ("]" + rest), items, rest);
      }
    case Obj(fields) =>
      if fields == [] {
        EmptyBack(rest);
      } else {
        FieldsBack(fields, rest);
        FieldsOpen(fields, "}" + rest);
        Bracketed("{", DumpsFields(fields), "}", rest);
        ReadObj(Dumps(j) + rest, DumpsFields(fields) + ("}" + rest), fields, rest);
        CollapsedDistinct(fields);
      }
  }

  lemma ItemsOpen(items: seq<Json>, rest: string)
    requires items != [] && forall x :: x in items ==> Wf(x)
    ensures var t := DumpsItems(items) + rest; t != "" && SkipBlanks(t) == t && t[0] != ']'
  {
    Opens(items[0]);
  }

  lemma FieldsOpen(fields: seq<Field>, rest: string)
    requires fields != []
    ensures var t := DumpsFields(fields) + rest; t != "" && SkipBlanks(t) == t && t[0] != '}'
  {
    assert DumpsField(fields[0])[0] == '\"';
  }

  lemma {:induction false} ItemsBack(items: seq<Json>, rest: string)
    requires items != [] && forall x :: x in items ==> Wf(x)
    ensures ReadItems(DumpsItems(items) + ("]" + rest)) == Part(items, rest)
    decreases items
  {
    var x, close := items[0], "]" + rest;
    if |items| == 1 {
      ValueBack(x, close);
      ReadLastItem(Dumps(x) + close, x, rest);
      assert [x] == items;
    } else {
      var others := items[1..];
      var more := DumpsItems(others) + close;
      ItemsBack(others, rest);
      ItemsOpen(others, close);
      ValueBack(x, ", " + more);
      MoreText(Dumps(x), DumpsItems(others), close);
      ReadMoreItems(Dumps(x) + (", " + more), x, more, others, rest);
      assert [x] + others == items;
    }
  }

  lemma FieldText(name: string, value: string, rest: string)
    ensures name + ": " + value + rest == name + (": " + (value + rest))
  {}

  lemma {:induction false} FieldBack(f: Field, rest: string)
    requires Wf(f.value) && Ends(rest)
    ensures ReadField(DumpsField(f) + rest) == Part(f, rest)
    decreases f
  {
    var v := Dumps(f.value) + rest;
    FieldText(Quote(f.name), Dumps(f.value), rest);
    QuoteBack(f.name, ": " + v);
    Opens(f.value);
    ValueBack(f.value, rest);
    ReadNamed(Quote(f.name) + (": " + v), f.name, v, f.value, rest);
  }

  lemma {:induction false} FieldsBack(fields: seq<Field>, rest: string)
    requires fields != [] && forall f :: f in fields ==> Wf(f.value)
    ensures ReadFields(DumpsFields(fields) + ("}" + rest)) == Part(fields, rest)
    decreases fields
  {
    var f, close := fields[0], "}" + rest;
    if |fields| == 1 {
      FieldBack(f, close);
      ReadLastField(DumpsField(f) + close, f, rest);
      assert [f] == fields;
    } else {
      var others := fields[1..];
      var more := DumpsFields(others) + close;
      FieldsBack(others, rest);
      FieldsOpen(others, close);
      FieldBack(f, ", " + more);
      MoreText(DumpsField(f), DumpsFields(others), close);
      ReadMoreFields(DumpsField(f) + (", " + more), f, more, others, rest);
      assert [f] + others == fields;
    }
  }

  lemma {:induction false} PutNew(fs: seq<Field>, f: Field)
    requires forall x :: x in fs ==> x.name != f.name
    ensures Put(fs, f) == fs + [f]
  {
    if fs != [] { PutNew(fs[1..], f); }
  }

  lemma {:induction false} CollapsedDistinct(fs: seq<Field>)
    requires DistinctNames(fs)
    ensures Collapsed(fs) == fs
  {
    if fs != [] {
      var p := fs[..|fs| - 1];
      CollapsedDistinct(p);
      PutNew(p, fs[|fs| - 1]);
      assert p + [fs[|fs| - 1]] == fs;
    }
  }

  /** Reading a written value gives it back. */
  lemma LoadsDumps(j: Json)
    requires Wf(j)
    ensures Loads(Dumps(j)) == Some(j)
  {
    Opens(j);
    ValueBack(j, "");
    assert Dumps(j) + "" == Dumps(j);
  }

  /** Hence no two well-formed values are written alike. */
  lemma DumpsInjective(a: Json, b: Json)
    requires Wf(a) && Wf(b) && Dumps(a) == Dumps(b)
    ensures a == b
  {
    LoadsDumps(a);
    LoadsDumps(b);
  }

  // ---- what is accepted is balanced ----

  function Outside(d: int): Scan { Scan(d, false, false) }

  function Inside(d: int): Scan { Scan(d, true, false) }

  lemma {:induction false} BlanksQuiet(t: string, d: int)
    ensures ScanText(Outside(d), SkipBlanks(t)) == ScanText(Outside(d), t)
  {
    if t != "" && Blank(t[0]) { BlanksQuiet(t[1..], d); }
  }

  /** The scanner passes over a first part that holds nothing structural. */
  lemma {:induction false} BareQuiet(t: string, d: int)
    ensures ScanText(Outside(d), t[BareLength(t)..]) == ScanText(Outside(d), t)
  {
    if t != "" && Bare(t[0]) {
      BareQuiet(t[1..], d);
      assert t[1..][BareLength(t[1..])..] == t[BareLength(t)..];
    } else {
      assert t[0..] == t;
    }
  }

  lemma UnitQuiet(t: string, d: int)
    requires |t| >= 6 && t[0] == '\\' && Unit(t[2..6]) >= 0
    ensures ScanText(Inside(d), t) == ScanText(Inside(d), t[6..])
  {
    var a := t[2..];
    assert t[1..][1..] == a;
    assert t[2..6][0] == a[0] && t[2..6][1] == a[1] && t[2..6][2] == a[2] && t[2..6][3] == a[3];
    assert a[1..][0] == a[1] && a[1..][1..] == a[2..];
    assert a[2..][0] == a[2] && a[2..][1..] == a[3..];
    assert a[3..][0] == a[3] && a[3..][1..] == t[6..];
    assert ScanText(Inside(d), t) == ScanText(Scan(d, true, true), t[1..]) == ScanText(Inside(d), a);
    HexQuiet(a, d);
    HexQuiet(a[1..], d);
    HexQuiet(a[2..], d);
    HexQuiet(a[3..], d);
  }

  lemma HexQuiet(t: string, d: int)
    requires t != "" && HexValue(t[0]) >= 0
    ensures ScanText(Inside(d), t) == ScanText(Inside(d), t[1..])
  {}

  lemma {:induction false} StringScanned(t: string, d: int)
    requires ReadString(t).Part?
    ensures ScanText(Inside(d), t) == ScanText(Outside(d), ReadString(t).rest)
    decreases |t|
  {
    if t[0] != '\"' {
      if t[0] != '\\' {
        StringScanned(t[1..], d);
      } else if t[1] == 'u' {
        UnitQuiet(t, d);
        StringScanned(t[6..], d);
      } else {
        assert t[1..][1..] == t[2..];
        assert ScanText(Inside(d), t) == ScanText(Scan(d, true, true), t[1..]) == ScanText(Inside(d), t[2..]);
        StringScanned(t[2..], d);
      }
    }
  }

  /** A value leaves the scanner at the depth it found it. */
  lemma {:induction false} ValueScanned(t: string, d: int)
    requires ReadValue(t).Part?
    ensures ScanText(Outside(d), t) == ScanText(Outside(d), ReadValue(t).rest)
    decreases |t|, 0
  {
    if t[0] == '\"' {
      StringScanned(t[1..], d);
    } else if t[0] == '[' || t[0] == '{' {
      var u := SkipBlanks(t[1..]);
      BlanksQuiet(t[1..], d + 1);
      assert ScanText(Outside(d), t) == ScanText(Outside(d + 1), u);
      if t[0] == '[' {
        if !(u != "" && u[0] == ']') { ItemsScanned(u, d + 1); }
      } else {
        if !(u != "" && u[0] == '}') { FieldsScanned(u, d + 1); }
      }
    } else {
      BareQuiet(t, d);
    }
  }

  lemma {:induction false} ItemsScanned(t: string, d: int)
    requires ReadItems(t).Part?
    ensures ScanText(Outside(d), t) == ScanText(Outside(d - 1), ReadItems(t).rest)
    decreases |t|, 1
  {
    ValueScanned(t, d);
    var v := ReadValue(t);
    var u := SkipBlanks(v.rest);
    BlanksQuiet(v.rest, d);
    if u[0] == ',' {
      BlanksQuiet(u[1..], d);
      ItemsScanned(SkipBlanks(u[1..]), d);
    }
  }

  lemma {:induction false} FieldScanned(t: string, d: int)
    requires ReadField(t).Part?
    ensures ScanText(Outside(d), t) == ScanText(Outside(d), ReadField(t).rest)
    decreases |t|, 1
  {
    StringScanned(t[1..], d);
    var name := ReadString(t[1..]);
    var u := SkipBlanks(name.rest);
    BlanksQuiet(name.rest, d);
    BlanksQuiet(u[1..], d);
    ValueScanned(SkipBlanks(u[1..]), d);
  }

  lemma {:induction false} FieldsScanned(t: string, d: int)
    requires ReadFields(t).Part?
    ensures ScanText(Outside(d), t) == ScanText(Outside(d - 1), ReadFields(t).rest)
    decreases |t|, 2
  {
    FieldScanned(t, d);
    var f := ReadField(t);
    var u := SkipBlanks(f.rest);
    BlanksQuiet(f.rest, d);
    if u[0] == ',' {
      BlanksQuiet(u[1..], d);
      FieldsScanned(SkipBlanks(u[1..]), d);
    }
  }

  /** Any text the reader accepts is balanced. */
  lemma AcceptedIsBalanced(t: string)
    requires Loads(t).Some?
    ensures Balanced(t)
  {
    var u := SkipBlanks(t);
    BlanksQuiet(t, 0);
    ValueScanned(u, 0);
    BlanksQuiet(ReadValue(u).rest, 0);
  }
}
