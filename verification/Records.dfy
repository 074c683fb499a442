/** Reading the store back: lines, records, the keys already done and the latest record per key. */
module Records {
  import opened Options
  import opened Json
  import opened Log
  import opened KeyedLog

  // ---- lines ----

  /** The lines of a file without their line breaks; an unterminated tail is the last line. */
  function Lines(file: string): (ls: seq<string>)
    decreases |file|
  {
    if file == "" then []
    else
      var body := Body(file);
      var cut := CutAt(body);
      Lines(body[..cut]) + [body[cut..]]
  }

  predicate Space(c: char) {
    c == ' ' || 9 <= c as int <= 13 || 28 <= c as int <= 31
  }

  function StripLeft(s: string): string {
    if s != "" && Space(s[0]) then StripLeft(s[1..]) else s
  }

  function StripRight(s: string): string {
    if s != "" && Space(s[|s| - 1]) then StripRight(s[..|s| - 1]) else s
  }

  function Strip(s: string): string {
    StripRight(StripLeft(s))
  }

  /** Lines, each ended by a break. */
  function Joined(ls: seq<string>): string {
    if ls == [] then "" else Joined(ls[..|ls| - 1]) + ls[|ls| - 1] + "\n"
  }

  /** No line holds a break, and each ended by one the lines are the file, whose last line may lack its break. */
  lemma {:induction false} LinesJoin(file: string)
    ensures forall l :: l in Lines(file) ==> '\n' !in l
    ensures Joined(Lines(file)) == if Ended(file) then file else file + "\n"
    decreases |file|
  {
    if file != "" {
      var front, last := LastLine(file);
      LinesJoin(front);
      JoinedSnoc(Lines(front), last);
    }
  }

  lemma LastLine(file: string) returns (front: string, last: string)
    requires file != ""
    ensures Lines(file) == Lines(front) + [last] && |front| < |file| && Ended(front) && '\n' !in last
    ensures front + last + "\n" == if Ended(file) then file else file + "\n"
  {
    var body := Body(file);
    front, last := body[..CutAt(body)], body[CutAt(body)..];
    if body == file { EndedCut(file); }
    CutJoins(body);
  }

  lemma EndedCut(body: string)
    requires body != "" && !Ended(body)
    ensures |body[..CutAt(body)]| < |body|
  {}

  lemma CutJoins(body: string)
    ensures body[..CutAt(body)] + body[CutAt(body)..] == body && Ended(body[..CutAt(body)])
    ensures '\n' !in body[CutAt(body)..]
  {}

  /** The file without its last break. */
  function Body(file: string): (body: string)
    ensures file != "" ==> body + "\n" == if Ended(file) then file else file + "\n"
    ensures file != "" && Ended(file) ==> |body| < |file|
  {
    if file != "" && Ended(file) then file[..|file| - 1] else file
  }

  predicate Ended(file: string) {
    file == "" || file[|file| - 1] == '\n'
  }

  lemma JoinedSnoc(ls: seq<string>, l: string)
    ensures Joined(ls + [l]) == Joined(ls) + l + "\n"
  {
    assert (ls + [l])[..|ls|] == ls;
  }

  /** Stripping removes the white space at both ends and nothing else. */
  lemma {:induction false} StripIs(s: string) returns (i: nat, j: nat)
    ensures i <= j <= |s| && Strip(s) == s[i..j]
    ensures forall k :: 0 <= k < i || j <= k < |s| ==> Space(s[k])
    ensures i < j ==> !Space(s[i]) && !Space(s[j - 1])
    decreases |s|
  {
    i, j := 0, |s|;
    if s != "" {
      if Space(s[0]) {
        var a, b := StripIs(s[1..]);
        i, j := a + 1, b + 1;
        assert forall k :: 0 < k < |s| ==> s[k] == s[1..][k - 1];
      } else if Space(s[j - 1]) {
        assert s[..j - 1][0] == s[0];
        i, j := StripIs(s[..j - 1]);
      }
    }
  }

  /** In ASCII these are the line breaks, tabs, separators and the blank. */
  lemma SpaceIs(c: char)
    ensures Space(c) <==> c as int in {9, 10, 11, 12, 13, 28, 29, 30, 31, 32}
  {}

  // ---- records ----

  /** What line `i` of a file contributes: nothing when blank, its value when it parses; only the last
      line may fail to. */
  datatype Parsed = Blank | Value(j: Json) | Corrupt

  function ParseLine(ls: seq<string>, i: nat, loads: Reader): Parsed
    requires i < |ls|
  {
    var line := Strip(ls[i]);
    if line == "" then Blank
    else
      match loads(line)
      case Some(j) => Value(j)
      case None => if i == |ls| - 1 then Blank else Corrupt
  }

  /** The values of the first `n` lines, or nothing if one before the last is corrupt. */
  function Read(ls: seq<string>, n: nat, loads: Reader): Option<seq<Json>>
    requires n <= |ls|
  {
    if n == 0 then Some([])
    else
      match Read(ls, n - 1, loads)
      case None => None
      case Some(rs) =>
        match ParseLine(ls, n - 1, loads)
        case Blank => Some(rs)
        case Value(j) => Some(rs + [j])
        case Corrupt => None
  }

  function ReadFile(file: string, loads: Reader): Option<seq<Json>> {
    Read(Lines(file), |Lines(file)|, loads)
  }

  /** Reading fails exactly when some line before the last is neither blank nor parses. */
  lemma ReadFailsIff(file: string, loads: Reader)
    ensures var ls := Lines(file);
            (ReadFile(file, loads) == None
             <==> exists i :: 0 <= i < |ls| - 1 && Strip(ls[i]) != "" && loads(Strip(ls[i])) == None)
  {
    FailsIff(Lines(file), |Lines(file)|, loads);
  }

  lemma {:induction false} FailsIff(ls: seq<string>, n: nat, loads: Reader)
    requires n <= |ls|
    ensures Read(ls, n, loads) == None
       <==> exists i :: 0 <= i < n && i < |ls| - 1 && Strip(ls[i]) != "" && loads(Strip(ls[i])) == None
  {
    if n > 0 {
      FailsIff(ls, n - 1, loads);
      var q := n - 1;
      assert ParseLine(ls, q, loads) == Corrupt <==> q < |ls| - 1 && Strip(ls[q]) != "" && loads(Strip(ls[q])) == None;
    }
  }

  /** What is read are the values of the lines that parse, blank ones aside, in order. */
  lemma {:induction false} ReadIs(ls: seq<string>, n: nat, loads: Reader) returns (at: seq<nat>)
    requires n <= |ls| && Read(ls, n, loads).Some?
    ensures var rs := Read(ls, n, loads).value;
            |at| == |rs| && forall k :: 0 <= k < |at| ==> at[k] < n && loads(Strip(ls[at[k]])) == Some(rs[k])
    ensures forall k, l :: 0 <= k < l < |at| ==> at[k] < at[l]
    ensures forall i: nat :: i in at <==> i < n && Strip(ls[i]) != "" && loads(Strip(ls[i])).Some?
  {
    if n == 0 {
      at := [];
    } else {
      var q := n - 1;
      at := ReadIs(ls, q, loads);
      if ParseLine(ls, q, loads).Value? { at := at + [q]; }
    }
  }

  function Texts(rs: seq<Json>): (ls: seq<string>)
    ensures |ls| == |rs| && forall i :: 0 <= i < |rs| ==> ls[i] == Dumps(rs[i])
  {
    seq(|rs|, i requires 0 <= i < |rs| => Dumps(rs[i]))
  }

  lemma LinesSnoc(rs: seq<Json>, line: string, broken: bool)
    requires forall i :: 0 <= i < |line| ==> line[i] != '\n'
    requires !broken ==> line != ""
    ensures Lines(Text(rs) + line + (if broken then "\n" else "")) == Lines(Text(rs)) + [line]
  {
    var body := Text(rs) + line;
    var file := body + if broken then "\n" else "";
    CutAtBoundary(rs, line);
    if broken {
      assert file[..|file| - 1] == body;
    } else {
      assert file == body;
      assert body[|body| - 1] == line[|line| - 1];
    }
    assert body[..|Text(rs)|] == Text(rs) && body[|Text(rs)|..] == line;
  }

  lemma TextSnoc(rs: seq<Json>, j: Json)
    ensures Text(rs + [j]) == Text(rs) + LineOf(j)
  {
    assert (rs + [j])[..|rs|] == rs;
  }

  lemma LinesOfRecord(rs: seq<Json>, j: Json)
    requires Record(j)
    ensures Lines(Text(rs + [j])) == Lines(Text(rs)) + [Dumps(j)]
  {
    TextSnoc(rs, j);
    DumpsOneLine(j);
    LinesSnoc(rs, Dumps(j), true);
    assert Text(rs) + Dumps(j) + "\n" == Text(rs) + LineOf(j);
  }

  /** The lines of a clean file are the records' texts. */
  lemma {:induction false} LinesOfText(rs: seq<Json>)
    requires forall j :: j in rs ==> Record(j)
    ensures Lines(Text(rs)) == Texts(rs)
  {
    if rs != [] {
      var p, j := rs[..|rs| - 1], rs[|rs| - 1];
      assert rs == p + [j];
      forall r | r in p ensures Record(r) { assert r in rs; }
      LinesOfText(p);
      LinesOfRecord(p, j);
      TextsSnoc(p, j);
    }
  }

  lemma TextsSnoc(rs: seq<Json>, j: Json)
    ensures Texts(rs + [j]) == Texts(rs) + [Dumps(j)]
  {}

  /** A record's text is neither blank nor changed by stripping. */
  lemma StripRecord(j: Json, k: nat)
    requires Record(j) && 0 < k <= |Dumps(j)|
    ensures Strip(Dumps(j)) == Dumps(j)
    ensures Strip(Dumps(j)[..k]) == StripRight(Dumps(j)[..k]) && Dumps(j)[..k][0] == '{'
  {
    var t := Dumps(j);
    assert t[0] == '{' && t[|t| - 1] == '}';
    assert t[..k][0] == '{';
  }

  lemma {:induction false} StripRightPrefix(s: string)
    ensures |StripRight(s)| <= |s| && StripRight(s) == s[..|StripRight(s)|]
    decreases |s|
  {
    if s != "" && Space(s[|s| - 1]) {
      StripRightPrefix(s[..|s| - 1]);
    }
  }

  lemma {:induction false} StripRightKeeps(s: string)
    requires s != "" && !Space(s[0])
    ensures StripRight(s) != ""
    decreases |s|
  {
    if |s| > 1 && Space(s[|s| - 1]) { StripRightKeeps(s[..|s| - 1]); }
  }

  /** Reading a clean file gives back exactly the records written, in order. */
  lemma {:induction false} ReadClean(rs: seq<Json>, ls: seq<string>, n: nat, loads: Reader)
    requires ReaderLaw(loads) && (forall j :: j in rs ==> Record(j))
    requires n <= |rs| <= |ls| && ls[..|rs|] == Texts(rs)
    ensures Read(ls, n, loads) == Some(rs[..n])
  {
    if n > 0 {
      ReadClean(rs, ls, n - 1, loads);
      assert ls[n - 1] == ls[..|rs|][n - 1];
      StripRecord(rs[n - 1], 1);
      assert rs[..n] == rs[..n - 1] + [rs[n - 1]];
    }
  }

  lemma ReadBack(rs: seq<Json>, loads: Reader)
    requires ReaderLaw(loads) && forall j :: j in rs ==> Record(j)
    ensures ReadFile(Text(rs), loads) == Some(rs)
  {
    LinesOfText(rs);
    ReadClean(rs, Texts(rs), |rs|, loads);
    assert Texts(rs)[..|rs|] == Texts(rs) && rs[..|rs|] == rs;
  }

  lemma {:induction false} KeptAreRecords(h: seq<Event>)
    requires Legal(h)
    ensures forall j :: j in Kept(h) ==> Record(j)
  {
    if h != [] { KeptAreRecords(h[..|h| - 1]); }
  }

  /** End to end: after any history of openings, appends, closings and crashes, the next opening reads back
      exactly the records that must survive, in order. */
  lemma ReopenReadsKept(h: seq<Event>, loads: Reader)
    requires ReaderLaw(loads) && Legal(h)
    ensures ReadFile(Repair(FileAfter(h, loads), loads), loads) == Some(Kept(h))
  {
    CrashSafe(h, loads);
    KeptAreRecords(h);
    ReadBack(Kept(h), loads);
  }

  /** What a file holding whole records and part of one more amounts to. */
  function Landed(rs: seq<Json>, j: Json, landed: nat): seq<Json> {
    if landed >= |Dumps(j)| then rs + [j] else rs
  }

  /** Readers tolerate a torn last line: an unrepaired file reads exactly as the repaired one. */
  lemma TornReadsAsRepaired(rs: seq<Json>, j: Json, landed: nat, loads: Reader)
    requires ReaderLaw(loads) && Record(j) && landed <= |LineOf(j)| && forall r :: r in rs ==> Record(r)
    ensures var torn := Text(rs) + LineOf(j)[..landed];
            ReadFile(torn, loads) == ReadFile(Repair(torn, loads), loads) == Some(Landed(rs, j, landed))
  {
    RepairTornAppend(rs, j, landed, loads);
    ReadBack(Landed(rs, j, landed), loads);
    if landed == 0 || landed > |Dumps(j)| {
      WholeLines(rs, j, landed);
    } else {
      assert LineOf(j)[..landed] == Dumps(j)[..landed];
      ReadTorn(rs, j, landed, loads);
    }
  }

  lemma WholeLines(rs: seq<Json>, j: Json, landed: nat)
    requires j.Obj? && (landed == 0 || landed == |LineOf(j)|)
    ensures Text(rs) + LineOf(j)[..landed] == Text(Landed(rs, j, landed))
  {
    if landed == 0 {
      assert Text(rs) + LineOf(j)[..0] == Text(rs);
    } else {
      TextSnoc(rs, j);
      assert LineOf(j)[..landed] == LineOf(j);
    }
  }

  lemma LinesOfTorn(rs: seq<Json>, line: string)
    requires (forall r :: r in rs ==> Record(r)) && line != "" && OneLine(line)
    ensures Lines(Text(rs) + line) == Texts(rs) + [line]
  {
    LinesSnoc(rs, line, false);
    assert Text(rs) + line + "" == Text(rs) + line;
    LinesOfText(rs);
  }

  lemma ReadTorn(rs: seq<Json>, j: Json, landed: nat, loads: Reader)
    requires ReaderLaw(loads) && Record(j) && 0 < landed <= |Dumps(j)| && forall r :: r in rs ==> Record(r)
    ensures ReadFile(Text(rs) + Dumps(j)[..landed], loads) == Some(if landed == |Dumps(j)| then rs + [j] else rs)
  {
    var line := Dumps(j)[..landed];
    DumpsOneLine(j);
    LinesOfTorn(rs, line);
    TornLast(rs, j, landed, loads);
    ReadAllBut(rs, line, loads);
    ReadMore(Texts(rs) + [line], |rs|, rs, loads);
  }

  lemma ReadMore(ls: seq<string>, n: nat, rs: seq<Json>, loads: Reader)
    requires |ls| == n + 1 && Read(ls, n, loads) == Some(rs) && !ParseLine(ls, n, loads).Corrupt?
    ensures Read(ls, |ls|, loads)
         == Some(if ParseLine(ls, n, loads).Value? then rs + [ParseLine(ls, n, loads).j] else rs)
  {}

  lemma ReadAllBut(rs: seq<Json>, line: string, loads: Reader)
    requires ReaderLaw(loads) && forall r :: r in rs ==> Record(r)
    ensures Read(Texts(rs) + [line], |rs|, loads) == Some(rs)
  {
    var ls := Texts(rs) + [line];
    assert ls[..|rs|] == Texts(rs);
    ReadClean(rs, ls, |rs|, loads);
    assert rs[..|rs|] == rs;
  }

  lemma TornLast(rs: seq<Json>, j: Json, landed: nat, loads: Reader)
    requires ReaderLaw(loads) && Record(j) && 0 < landed <= |Dumps(j)|
    ensures ParseLine(Texts(rs) + [Dumps(j)[..landed]], |rs|, loads) == if landed == |Dumps(j)| then Value(j) else Blank
  {
    var t := Dumps(j);
    StripRecord(j, landed);
    if landed == |t| {
      assert t[..landed] == t;
    } else {
      var s := StripRight(t[..landed]);
      StripRightPrefix(t[..landed]);
      StripRightKeeps(t[..landed]);
      assert s == t[..|s|];
      TornRecordIsUnbalanced(j.fields, |s|);
      assert s[0] == '{';
    }
  }

  // ---- keys ----

  /** The value of a field, if the record has it. */
  function Get(j: Json, name: string): Option<Json> {
    if j.Obj? then Lookup(j.fields, name) else None
  }

  function Lookup(fs: seq<Field>, name: string): Option<Json> {
    if fs == [] then None
    else if fs[|fs| - 1].name == name then Some(fs[|fs| - 1].value)
    else Lookup(fs[..|fs| - 1], name)
  }

  /** Of fields with one name the last is read, and a name is missing exactly when no field has it. */
  lemma {:induction false} LookupIsLast(fs: seq<Field>, name: string)
    ensures Lookup(fs, name) == None <==> forall i :: 0 <= i < |fs| ==> fs[i].name != name
    ensures forall i :: 0 <= i < |fs| && fs[i].name == name && (forall k :: i < k < |fs| ==> fs[k].name != name) ==>
              Lookup(fs, name) == Some(fs[i].value)
  {
    if fs != [] {
      var rest := fs[..|fs| - 1];
      LookupIsLast(rest, name);
      assert forall i :: 0 <= i < |rest| ==> rest[i] == fs[i];
    }
  }

  const NULL := Atom("null")

  /** Python truth of a parsed value. */
  predicate Truthy(j: Json) {
    match j
    case Atom(t) => t != "null" && t != "false" && !ZeroNumber(t)
    case Str(s) => s != ""
    case Arr(items) => items != []
    case Obj(fields) => fields != []
  }

  /** A number all of whose digits before any exponent are zero. */
  predicate ZeroNumber(t: string) {
    t != "" && (t[0] == '-' || t[0] == '0')
    && forall i :: 0 <= i < |t| && '1' <= t[i] <= '9' ==> exists k :: 0 <= k < i && (t[k] == 'e' || t[k] == 'E')
  }

  predicate Failed(j: Json) {
    Get(j, "error").Some? && Truthy(Get(j, "error").value)
  }

  /** A record failed exactly when it has an error that is neither null, false, empty nor a number all of whose digits
      before any exponent are zero. */
  lemma FailedIff(fs: seq<Field>)
    ensures Lookup(fs, "error") == None ==> !Failed(Obj(fs))
    ensures Lookup(fs, "error").Some? ==>
              var e := Lookup(fs, "error").value;
              && (!e.Atom? ==> (Failed(Obj(fs)) <==> e != Str("") && e != Arr([]) && e != Obj([])))
              && (e.Atom? && !Numeric(e.text) ==> (Failed(Obj(fs)) <==> e.text != "null" && e.text != "false"))
              && (e.Atom? && Numeric(e.text) && 'e' !in e.text && 'E' !in e.text ==>
                    (Failed(Obj(fs)) <==> exists i :: 0 <= i < |e.text| && '1' <= e.text[i] <= '9'))
  {}

  /** What a number opens with. */
  predicate Numeric(t: string) {
    t != "" && (t[0] == '-' || '0' <= t[0] <= '9')
  }

  function KeyOf(j: Json): Option<Json> {
    Get(j, "key")
  }

  /** The key a record is superseded by: a null key names nothing. */
  function LiveKey(j: Json): Option<Json> {
    if KeyOf(j) == Some(NULL) then None else KeyOf(j)
  }

  predicate Never(j: Json) {
    false
  }

  /** Keys recorded without an error; with `errors`, all recorded keys. */
  function DoneKeys(rs: seq<Json>, errors: bool): (done: set<Json>) {
    Done(rs, KeyOf, if errors then Never else Failed)
  }

  /** The last record of every key. */
  function LatestRecords(rs: seq<Json>): (m: map<Json, Json>) {
    Latest(rs, LiveKey)
  }
}
