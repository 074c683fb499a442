/** The append-only file under power cuts: what any history of appends, crashes and repairs leaves
    on disk. */
module Log {
  import opened Options
  import opened Json
  import opened JsonReader
  import opened JsonRoundTrip

  /** A JSON reader. */
  type Reader = string -> Option<Json>

  /** What is appended: an object. */
  ghost predicate Record(j: Json) {
    j.Obj? && Wf(j)
  }

  /** The reader gives back every record written, and accepts no unbalanced text that opens as an
      object. */
  ghost predicate ReaderLaw(loads: Reader) {
    && (forall j :: Record(j) ==> loads(Dumps(j)) == Some(j))
    && (forall t :: t != "" && t[0] == '{' && loads(t).Some? ==> Balanced(t))
  }

  /** The reader of this model obeys the law. */
  lemma LoadsIsLawful()
    ensures ReaderLaw(Loads)
  {
    forall j | Record(j) ensures Loads(Dumps(j)) == Some(j) { LoadsDumps(j); }
    forall t | t != "" && t[0] == '{' && Loads(t).Some? ensures Balanced(t) { AcceptedIsBalanced(t); }
  }

  function LineOf(j: Json): string {
    Dumps(j) + "\n"
  }

  function Text(rs: seq<Json>): string {
    if rs == [] then "" else Text(rs[..|rs| - 1]) + LineOf(rs[|rs| - 1])
  }

  /** One past the last line break, zero when there is none. */
  function CutAt(file: string): (c: nat)
    ensures c <= |file|
    ensures c > 0 ==> file[c - 1] == '\n'
    ensures forall i :: c <= i < |file| ==> file[i] != '\n'
  {
    if file == "" then 0
    else if file[|file| - 1] == '\n' then |file|
    else CutAt(file[..|file| - 1])
  }

  /** Making the file end on a record boundary: an unterminated tail that parses gets its line break,
      any other is cut off. */
  function Repair(file: string, loads: Reader): string {
    var cut := CutAt(file);
    if cut == |file| then file
    else if loads(file[cut..]).Some? then file + "\n"
    else file[..cut]
  }

  /** Repairing twice is repairing once, and the result is empty or newline-terminated. */
  lemma RepairIdempotent(file: string, loads: Reader)
    ensures Repair(Repair(file, loads), loads) == Repair(file, loads)
    ensures var r := Repair(file, loads); r != "" ==> r[|r| - 1] == '\n'
  {
    var r, cut := Repair(file, loads), CutAt(file);
    if cut < |file| && loads(file[cut..]).Some? {
      assert r[|r| - 1] == '\n';
    }
    if r != "" { assert CutAt(r) == |r|; }
  }

  lemma {:induction false} CutAtBoundary(rs: seq<Json>, tail: string)
    requires forall i :: 0 <= i < |tail| ==> tail[i] != '\n'
    ensures CutAt(Text(rs) + tail) == |Text(rs)|
    decreases |tail|
  {
    var f := Text(rs) + tail;
    if tail == "" {
      assert f == Text(rs);
    } else {
      CutAtBoundary(rs, tail[..|tail| - 1]);
      assert f[..|f| - 1] == Text(rs) + tail[..|tail| - 1];
    }
  }

  /** The heart of the design: whatever prefix of an in-flight record's bytes landed, repair keeps
      every earlier record untouched and keeps the in-flight one exactly when all of it landed. */
  lemma RepairTornAppend(rs: seq<Json>, j: Json, landed: nat, loads: Reader)
    requires ReaderLaw(loads) && Record(j) && landed <= |LineOf(j)|
    ensures Repair(Text(rs) + LineOf(j)[..landed], loads)
         == Text(if landed >= |Dumps(j)| then rs + [j] else rs)
  {
    assert (rs + [j])[..|rs|] == rs;
    if landed > |Dumps(j)| {
      assert LineOf(j)[..landed] == LineOf(j);
      RepairClean(rs + [j], loads);
    } else {
      assert LineOf(j)[..landed] == Dumps(j)[..landed];
      RepairPart(rs, j, landed, loads);
    }
  }

  /** The line break did not land. */
  lemma RepairPart(rs: seq<Json>, j: Json, landed: nat, loads: Reader)
    requires ReaderLaw(loads) && Record(j) && landed <= |Dumps(j)|
    ensures Repair(Text(rs) + Dumps(j)[..landed], loads) == Text(rs) + if landed == |Dumps(j)| then LineOf(j) else ""
  {
    var t := Dumps(j);
    DumpsOneLine(j);
    CutAtBoundary(rs, t[..landed]);
    RepairAt(Text(rs), t[..landed], loads);
    if landed > 0 {
      TornRecordIsUnbalanced(j.fields, landed);
      assert t[..landed][0] == '{';
    }
    if landed == |t| { assert t[..landed] == t; }
  }

  lemma RepairAt(head: string, tail: string, loads: Reader)
    requires CutAt(head + tail) == |head|
    ensures Repair(head + tail, loads) == head + if tail != "" && loads(tail).Some? then tail + "\n" else ""
  {
    assert (head + tail)[..|head|] == head && (head + tail)[|head|..] == tail;
  }

  lemma RepairClean(rs: seq<Json>, loads: Reader)
    ensures Repair(Text(rs), loads) == Text(rs)
  {
    CutAtBoundary(rs, "");
    assert Text(rs) + "" == Text(rs);
  }

  // ---- histories ----

  /** What can happen to the file. A crash during opening leaves the repair done or not; a crash
      during an append leaves some prefix of the line. */
  datatype Event =
    | Opened
    | OpenCrashed(done: bool)
    | Appended(j: Json)
    | AppendCrashed(j: Json, landed: nat)
    | Closed

  ghost predicate IsOpen(h: seq<Event>) {
    h != [] && (h[|h| - 1].Opened? || h[|h| - 1].Appended?)
  }

  /** A writer appends only while it holds the store open, and opens only when it does not. */
  ghost predicate Legal(h: seq<Event>) {
    h == [] ||
    var p, e := h[..|h| - 1], h[|h| - 1];
    && Legal(p)
    && match e
       case Opened => !IsOpen(p)
       case OpenCrashed(_) => !IsOpen(p)
       case Appended(j) => IsOpen(p) && Record(j)
       case AppendCrashed(j, landed) => IsOpen(p) && Record(j) && landed <= |LineOf(j)|
       case Closed => IsOpen(p)
  }

  function FileAfter(h: seq<Event>, loads: Reader): string {
    if h == [] then ""
    else
      var file := FileAfter(h[..|h| - 1], loads);
      match h[|h| - 1]
      case Opened => Repair(file, loads)
      case OpenCrashed(done) => if done then Repair(file, loads) else file
      case Appended(j) => file + LineOf(j)
      case AppendCrashed(j, landed) => if landed <= |LineOf(j)| then file + LineOf(j)[..landed] else file
      case Closed => file
  }

  /** The records that must survive: every append that returned, in order, and a crashed one only if
      all its bytes landed. */
  function Kept(h: seq<Event>): seq<Json> {
    if h == [] then []
    else
      var rs := Kept(h[..|h| - 1]);
      match h[|h| - 1]
      case Appended(j) => rs + [j]
      case AppendCrashed(j, landed) => if landed >= |Dumps(j)| then rs + [j] else rs
      case _ => rs
  }

  /** Crash safety: after every legal history, repairing the file gives exactly the lines of the kept
      records; and while a writer holds the store the file already is those lines. */
  lemma {:induction false} CrashSafe(h: seq<Event>, loads: Reader)
    requires ReaderLaw(loads) && Legal(h)
    ensures Repair(FileAfter(h, loads), loads) == Text(Kept(h))
    ensures IsOpen(h) ==> FileAfter(h, loads) == Text(Kept(h))
  {
    if h == [] {
      RepairClean([], loads);
    } else {
      var p, e := h[..|h| - 1], h[|h| - 1];
      CrashSafe(p, loads);
      RepairClean(Kept(p), loads);
      match e
      case Appended(j) =>
        assert (Kept(p) + [j])[..|Kept(p)|] == Kept(p);
        RepairClean(Kept(h), loads);
      case AppendCrashed(j, landed) =>
        RepairTornAppend(Kept(p), j, landed, loads);
      case _ =>
    }
  }
}
