/** Harnesses over the bytes of their store. A run repairs and reads the store, decides from what it read which records
    to append, and may be killed anywhere in the bytes it writes. Every such history is one of the file histories of
    `Log`, and leaves the records that a kill between two records could have left. */
module Harness {
  import opened Seqs
  import opened Json
  import opened Log
  import opened Records

  /** What a run appends, from the records it read; and where it is cut off. */
  datatype Run = Run(program: seq<Json> -> seq<Json>, cut: nat)

  /** The records a store holds. */
  function RecordsOf(file: string, loads: Reader): seq<Json> {
    match ReadFile(file, loads)
    case None => []
    case Some(rs) => rs
  }

  function Part<T>(s: seq<T>, cut: nat): seq<T> {
    if cut <= |s| then s[..cut] else s
  }

  /** The file after runs cut at bytes. */
  function FileAfterRuns(runs: seq<Run>, loads: Reader): string {
    if runs == [] then ""
    else
      var r, file := runs[|runs| - 1], Repair(FileAfterRuns(runs[..|runs| - 1], loads), loads);
      file + Part(Text(r.program(RecordsOf(file, loads))), r.cut)
  }

  /** The records after runs cut between records. */
  function RecordsAfterRuns(runs: seq<Run>): seq<Json> {
    if runs == [] then []
    else
      var r, rs := runs[|runs| - 1], RecordsAfterRuns(runs[..|runs| - 1]);
      rs + Part(r.program(rs), r.cut)
  }

  ghost predicate AllRecords(rs: seq<Json>) {
    forall j :: j in rs ==> Record(j)
  }

  /** A program that only ever appends records. */
  ghost predicate Writes(program: seq<Json> -> seq<Json>) {
    forall rs :: AllRecords(program(rs))
  }

  ghost predicate AllWrite(runs: seq<Run>) {
    forall i :: 0 <= i < |runs| ==> Writes(runs[i].program)
  }

  ghost predicate SamePrograms(a: seq<Run>, b: seq<Run>) {
    |a| == |b| && forall i :: 0 <= i < |a| ==> a[i].program == b[i].program
  }

  lemma SameNext(a: seq<Run>, b: seq<Run>, last: Run)
    requires a != [] && SamePrograms(a[..|a| - 1], b) && last.program == a[|a| - 1].program
    ensures SamePrograms(a, b + [last])
  {
    var c := b + [last];
    forall i | 0 <= i < |a| ensures a[i].program == c[i].program {
      if i < |b| { assert a[..|a| - 1][i].program == b[i].program; }
    }
  }

  lemma {:induction false} RunsLeaveRecords(runs: seq<Run>)
    requires AllWrite(runs)
    ensures AllRecords(RecordsAfterRuns(runs))
  {
    if runs != [] {
      RunsLeaveRecords(runs[..|runs| - 1]);
      assert Writes(runs[|runs| - 1].program);
    }
  }

  lemma ReadsBack(rs: seq<Json>, loads: Reader)
    requires ReaderLaw(loads) && AllRecords(rs)
    ensures RecordsOf(Text(rs), loads) == rs
  {
    ReadBack(rs, loads);
  }

  // ---- texts cut anywhere ----

  lemma {:induction false} TextAppend(a: seq<Json>, b: seq<Json>)
    ensures Text(a + b) == Text(a) + Text(b)
  {
    if b == [] {
      assert a + b == a && Text(a) + "" == Text(a);
    } else {
      var p, x := b[..|b| - 1], b[|b| - 1];
      TextAppend(a, p);
      assert a + b == (a + p) + [x];
      TextSnoc(a + p, x);
      Assoc(Text(a), Text(p), LineOf(x));
    }
  }

  /** Which records a first part of a text holds whole, and how much of the next one. */
  lemma {:induction false} CutText(js: seq<Json>, cut: nat) returns (m: nat, landed: nat)
    requires cut <= |Text(js)|
    ensures m <= |js| && (m < |js| ==> landed <= |LineOf(js[m])|) && (m == |js| ==> landed == 0)
    ensures Text(js)[..cut] == Text(js[..m]) + if m < |js| then LineOf(js[m])[..landed] else ""
  {
    if js == [] {
      m, landed := 0, 0;
    } else {
      var p, x := js[..|js| - 1], js[|js| - 1];
      if cut <= |Text(p)| {
        m, landed := CutText(p, cut);
        assert Text(js)[..cut] == Text(p)[..cut];
        assert p[..m] == js[..m];
        if m == |p| { assert LineOf(x)[..0] == ""; }
      } else {
        m, landed := |p|, cut - |Text(p)|;
        assert Text(js)[..cut] == Text(p) + LineOf(x)[..landed];
      }
    }
  }

  // ---- runs as file histories ----

  function Appends(rs: seq<Json>): (es: seq<Event>)
    ensures |es| == |rs| && forall i :: 0 <= i < |rs| ==> es[i] == Appended(rs[i])
  {
    seq(|rs|, i requires 0 <= i < |rs| => Appended(rs[i]))
  }

  lemma OpenStep(h: seq<Event>, loads: Reader)
    requires Legal(h) && !IsOpen(h)
    ensures Legal(h + [Opened]) && IsOpen(h + [Opened])
    ensures FileAfter(h + [Opened], loads) == Repair(FileAfter(h, loads), loads) && Kept(h + [Opened]) == Kept(h)
  {
    assert (h + [Opened])[..|h|] == h;
  }

  lemma AppendStep(h: seq<Event>, j: Json, loads: Reader)
    requires Legal(h) && IsOpen(h) && Record(j)
    ensures Legal(h + [Appended(j)]) && IsOpen(h + [Appended(j)])
    ensures FileAfter(h + [Appended(j)], loads) == FileAfter(h, loads) + LineOf(j)
    ensures Kept(h + [Appended(j)]) == Kept(h) + [j]
  {
    assert (h + [Appended(j)])[..|h|] == h;
  }

  lemma CloseStep(h: seq<Event>, loads: Reader)
    requires Legal(h) && IsOpen(h)
    ensures Legal(h + [Closed]) && !IsOpen(h + [Closed])
    ensures FileAfter(h + [Closed], loads) == FileAfter(h, loads) && Kept(h + [Closed]) == Kept(h)
  {
    assert (h + [Closed])[..|h|] == h;
  }

  lemma CrashStep(h: seq<Event>, j: Json, landed: nat, loads: Reader)
    requires Legal(h) && IsOpen(h) && Record(j) && landed <= |LineOf(j)|
    ensures var after := h + [AppendCrashed(j, landed)];
            && Legal(after) && !IsOpen(after) && FileAfter(after, loads) == FileAfter(h, loads) + LineOf(j)[..landed]
            && Kept(after) == if landed >= |Dumps(j)| then Kept(h) + [j] else Kept(h)
  {
    assert (h + [AppendCrashed(j, landed)])[..|h|] == h;
  }

  lemma AppendsSnoc(rs: seq<Json>, j: Json)
    ensures Appends(rs + [j]) == Appends(rs) + [Appended(j)]
  {}

  lemma {:induction false} AppendMany(h: seq<Event>, rs: seq<Json>, loads: Reader)
    requires Legal(h) && IsOpen(h) && AllRecords(rs)
    ensures Legal(h + Appends(rs)) && IsOpen(h + Appends(rs))
    ensures FileAfter(h + Appends(rs), loads) == FileAfter(h, loads) + Text(rs)
    ensures Kept(h + Appends(rs)) == Kept(h) + rs
  {
    if rs == [] {
      assert h + Appends(rs) == h && Kept(h) + rs == Kept(h) && FileAfter(h, loads) + "" == FileAfter(h, loads);
    } else {
      var p, x := rs[..|rs| - 1], rs[|rs| - 1];
      assert rs == p + [x];
      AppendMany(h, p, loads);
      AppendsSnoc(p, x);
      TextSnoc(p, x);
      Assoc(h, Appends(p), [Appended(x)]);
      AppendStep(h + Appends(p), x, loads);
      Assoc(FileAfter(h, loads), Text(p), LineOf(x));
      Assoc(Kept(h), p, [x]);
    }
  }

  /** A run that returns: it opens, appends its records and closes. */
  lemma WholeRun(h: seq<Event>, rs: seq<Json>, loads: Reader) returns (after: seq<Event>)
    requires Legal(h) && !IsOpen(h) && AllRecords(rs)
    ensures Legal(after) && !IsOpen(after) && Kept(after) == Kept(h) + rs
    ensures FileAfter(after, loads) == Repair(FileAfter(h, loads), loads) + Text(rs)
  {
    OpenStep(h, loads);
    AppendMany(h + [Opened], rs, loads);
    after := h + [Opened] + Appends(rs) + [Closed];
    CloseStep(h + [Opened] + Appends(rs), loads);
  }

  /** A run killed inside a record. */
  lemma TornRun(h: seq<Event>, rs: seq<Json>, j: Json, landed: nat, loads: Reader) returns (after: seq<Event>)
    requires Legal(h) && !IsOpen(h) && AllRecords(rs) && Record(j) && landed <= |LineOf(j)|
    ensures Legal(after) && !IsOpen(after)
    ensures Kept(after) == Kept(h) + if landed >= |Dumps(j)| then rs + [j] else rs
    ensures FileAfter(after, loads) == Repair(FileAfter(h, loads), loads) + (Text(rs) + LineOf(j)[..landed])
  {
    OpenStep(h, loads);
    AppendMany(h + [Opened], rs, loads);
    var open := h + [Opened] + Appends(rs);
    after := open + [AppendCrashed(j, landed)];
    CrashStep(open, j, landed, loads);
    Assoc(Repair(FileAfter(h, loads), loads), Text(rs), LineOf(j)[..landed]);
    Assoc(Kept(h), rs, [j]);
  }

  /** One run over a closed store, as events: it opens, appends some records, and is closed or cut off inside one. */
  lemma RunHistory(h: seq<Event>, rs: seq<Json>, cut: nat, loads: Reader) returns (after: seq<Event>, k: nat)
    requires Legal(h) && !IsOpen(h) && AllRecords(rs)
    ensures Legal(after) && !IsOpen(after) && k <= |rs| && Kept(after) == Kept(h) + rs[..k]
    ensures FileAfter(after, loads) == Repair(FileAfter(h, loads), loads) + Part(Text(rs), cut)
  {
    var c := if cut <= |Text(rs)| then cut else |Text(rs)|;
    assert Part(Text(rs), cut) == Text(rs)[..c];
    var m, landed := CutText(rs, c);
    if m == |rs| {
      k := m;
      after := WholeRun(h, rs, loads);
      assert rs[..m] == rs && Text(rs) + "" == Text(rs);
    } else {
      k := if landed >= |Dumps(rs[m])| then m + 1 else m;
      after := TornRun(h, rs[..m], rs[m], landed, loads);
      assert rs[..m + 1] == rs[..m] + [rs[m]];
    }
  }

  lemma RunAgain(runs: seq<Run>, rs: seq<Json>, loads: Reader)
    requires runs != [] && RecordsOf(Repair(FileAfterRuns(runs[..|runs| - 1], loads), loads), loads) == rs
    ensures var r := runs[|runs| - 1];
            FileAfterRuns(runs, loads)
              == Repair(FileAfterRuns(runs[..|runs| - 1], loads), loads) + Part(Text(r.program(rs)), r.cut)
  {}

  lemma ReadsNext(h: seq<Event>, rs: seq<Json>, loads: Reader)
    requires ReaderLaw(loads) && Legal(h) && Kept(h) == rs && AllRecords(rs)
    ensures RecordsOf(Repair(FileAfter(h, loads), loads), loads) == rs
  {
    CrashSafe(h, loads);
    ReadsBack(rs, loads);
  }

  lemma NextRun(some: seq<Run>, program: seq<Json> -> seq<Json>, k: nat) returns (kills: seq<Run>)
    requires k <= |program(RecordsAfterRuns(some))|
    ensures kills == some + [Run(program, k)]
    ensures RecordsAfterRuns(kills) == RecordsAfterRuns(some) + program(RecordsAfterRuns(some))[..k]
  {
    kills := some + [Run(program, k)];
    assert kills[..|some|] == some;
  }

  /** Runs cut at bytes are a legal history of the file, and what must survive it is what runs of the same programs cut
      between records leave. */
  lemma {:induction false} RunsAreHistory(runs: seq<Run>, loads: Reader) returns (h: seq<Event>, kills: seq<Run>)
    requires ReaderLaw(loads) && AllWrite(runs)
    ensures Legal(h) && !IsOpen(h) && FileAfter(h, loads) == FileAfterRuns(runs, loads)
    ensures SamePrograms(runs, kills) && Kept(h) == RecordsAfterRuns(kills)
  {
    if runs == [] {
      h, kills := [], [];
    } else {
      var p, r := runs[..|runs| - 1], runs[|runs| - 1];
      var before, some := RunsAreHistory(p, loads);
      var rs := RecordsAfterRuns(some);
      RunsLeaveRecords(some);
      ReadsNext(before, rs, loads);
      RunAgain(runs, rs, loads);
      assert Writes(r.program);
      var k;
      h, k := RunHistory(before, r.program(rs), r.cut, loads);
      kills := NextRun(some, r.program, k);
      SameNext(runs, some, Run(r.program, k));
    }
  }

  /** The next opening reads exactly those records. */
  lemma BytesRefineRecords(runs: seq<Run>, loads: Reader) returns (kills: seq<Run>)
    requires ReaderLaw(loads) && AllWrite(runs)
    ensures SamePrograms(runs, kills)
    ensures Repair(FileAfterRuns(runs, loads), loads) == Text(RecordsAfterRuns(kills))
    ensures RecordsOf(Repair(FileAfterRuns(runs, loads), loads), loads) == RecordsAfterRuns(kills)
  {
    var h;
    h, kills := RunsAreHistory(runs, loads);
    RunsLeaveRecords(kills);
    ReadsNext(h, RecordsAfterRuns(kills), loads);
    CrashSafe(h, loads);
  }

  /** And every history of kills between records can happen. */
  lemma {:induction false} RecordsHappen(kills: seq<Run>, loads: Reader) returns (runs: seq<Run>)
    requires ReaderLaw(loads) && AllWrite(kills)
    ensures SamePrograms(runs, kills) && FileAfterRuns(runs, loads) == Text(RecordsAfterRuns(kills))
  {
    if kills == [] {
      runs := [];
    } else {
      var p, r := kills[..|kills| - 1], kills[|kills| - 1];
      var before := RecordsHappen(p, loads);
      var rs := RecordsAfterRuns(p);
      RunsLeaveRecords(p);
      ReadsBack(rs, loads);
      RepairClean(rs, loads);
      var cut := FirstPart(r.program(rs), r.cut);
      TextAppend(rs, Part(r.program(rs), r.cut));
      runs := before + [Run(r.program, cut)];
      assert runs[..|before|] == before;
      SameNext(kills, before, Run(r.program, cut));
      RunAgain(runs, rs, loads);
    }
  }

  lemma FirstPart(rs: seq<Json>, k: nat) returns (cut: nat)
    ensures Part(Text(rs), cut) == Text(Part(rs, k))
  {
    var p := Part(rs, k);
    cut := |Text(p)|;
    assert p + rs[|p|..] == rs;
    TextAppend(p, rs[|p|..]);
  }
}
