/** The usage protocol over the bytes of the store: runs that append one record for each item not done yet, killed
    anywhere in the bytes they write, leave a store on which success is last. */
module SessionsOnDisk {
  import opened Options
  import opened Json
  import opened Log
  import opened Records
  import opened KeyedLog
  import opened Harness
  import opened Sessions
  import S = Store

  /** Whatever it read, the program appends a session. */
  ghost predicate Resumes(program: seq<Json> -> seq<Json>) {
    forall log :: SessionOk(log, program(log))
  }

  ghost predicate AllResume(runs: seq<Run>) {
    forall i :: 0 <= i < |runs| ==> Resumes(runs[i].program)
  }

  lemma {:induction false} RunsAreSessions(runs: seq<Run>) returns (sessions: seq<seq<Json>>)
    requires AllResume(runs)
    ensures Protocol(sessions) && |sessions| == |runs| && LogAfter(sessions) == RecordsAfterRuns(runs)
  {
    if runs == [] {
      sessions := [];
    } else {
      var p, r := runs[..|runs| - 1], runs[|runs| - 1];
      var before := RunsAreSessions(p);
      var log := RecordsAfterRuns(p);
      var s := Part(r.program(log), r.cut);
      assert Resumes(r.program);
      CrashKeepsProtocol(log, r.program(log), |s|);
      assert s == r.program(log)[..|s|];
      sessions := before + [s];
      assert sessions[..|before|] == before;
    }
  }

  lemma SameResume(a: seq<Run>, b: seq<Run>)
    requires AllResume(a) && SamePrograms(a, b)
    ensures AllResume(b)
  {
    forall i | 0 <= i < |b| ensures Resumes(b[i].program) { assert a[i].program == b[i].program; }
  }

  /** After any number of runs killed anywhere in their bytes, what the next one reads is a log of the protocol. */
  lemma KilledRunsKeepProtocol(runs: seq<Run>, loads: Reader) returns (sessions: seq<seq<Json>>)
    requires ReaderLaw(loads) && AllWrite(runs) && AllResume(runs)
    ensures Protocol(sessions) && |sessions| == |runs|
    ensures RecordsOf(Repair(FileAfterRuns(runs, loads), loads), loads) == LogAfter(sessions)
  {
    var kills := BytesRefineRecords(runs, loads);
    SameResume(runs, kills);
    sessions := RunsAreSessions(kills);
  }

  /** So no key is recorded again after its success, and a key is skipped exactly when its latest record succeeded. */
  lemma KilledRunsSkipSuccesses(runs: seq<Run>, loads: Reader, k: Json)
    requires ReaderLaw(loads) && AllWrite(runs) && AllResume(runs)
    ensures var log := RecordsOf(Repair(FileAfterRuns(runs, loads), loads), loads);
            && SuccessIsLast(log)
            && (k in DoneKeys(log, false) <==> k in LatestRecords(log) && !Failed(LatestRecords(log)[k]))
  {
    var sessions := KilledRunsKeepProtocol(runs, loads);
    ProtocolSuccessIsLast(sessions);
    DoneIsLatestOk(sessions, k);
  }

  // ---- the harness's work list ----

  /** The harness: one record for each item that is not done, in order. */
  function Work<T(!new)>(items: seq<T>, keyOf: T -> Json, record: T -> Json): seq<Json> -> seq<Json> {
    (log: seq<Json>) => Recorded(S.Pending(items, keyOf, DoneKeys(log, false)), record)
  }

  function Recorded<T>(work: seq<T>, record: T -> Json): (s: seq<Json>)
    ensures |s| == |work| && forall i :: 0 <= i < |s| ==> s[i] == record(work[i])
  {
    seq(|work|, i requires 0 <= i < |work| => record(work[i]))
  }

  /** The harness resumes properly from every store exactly when its items have distinct keys. */
  lemma WorkResumesIff<T(!new)>(items: seq<T>, keyOf: T -> Json, record: T -> Json)
    requires forall x :: Labelled(keyOf, record, x)
    ensures Resumes(Work(items, keyOf, record)) <==> S.DistinctKeys(items, keyOf)
  {
    var work := Work(items, keyOf, record);
    if S.DistinctKeys(items, keyOf) {
      forall log ensures SessionOk(log, work(log)) {
        WorkListIsSession(log, items, keyOf, record, work(log));
      }
    } else {
      WorkListIff([], items, keyOf, record, work([]));
      AllPending(items, keyOf);
    }
  }

  lemma {:induction false} AllPending<T>(items: seq<T>, keyOf: T -> Json)
    ensures S.Pending(items, keyOf, {}) == items
  {
    if items != [] { AllPending(items[..|items| - 1], keyOf); }
  }

  // ---- restarts are invisible ----

  /** Items of one key are recorded alike; distinct keys make it so. */
  ghost predicate Deterministic<T>(items: seq<T>, keyOf: T -> Json, record: T -> Json) {
    forall i, j :: 0 <= i < |items| && 0 <= j < |items| && keyOf(items[i]) == keyOf(items[j]) ==>
      record(items[i]) == record(items[j])
  }

  ghost predicate SameWork<T(!new)>(runs: seq<Run>, items: seq<T>, keyOf: T -> Json, record: T -> Json) {
    forall i :: 0 <= i < |runs| ==> runs[i].program == Work(items, keyOf, record)
  }

  ghost predicate OfItem<T>(items: seq<T>, record: T -> Json, r: Json) {
    exists i :: 0 <= i < |items| && r == record(items[i])
  }

  /** The store holds records of the items only. */
  ghost predicate OfItems<T>(items: seq<T>, record: T -> Json, log: seq<Json>) {
    forall r :: r in log ==> OfItem(items, record, r)
  }

  lemma WorkOfItems<T(!new)>(items: seq<T>, keyOf: T -> Json, record: T -> Json, log: seq<Json>)
    ensures OfItems(items, record, Work(items, keyOf, record)(log))
  {
    var done := DoneKeys(log, false);
    var work := S.Pending(items, keyOf, done);
    forall r | r in Recorded(work, record) ensures OfItem(items, record, r) {
      var i :| 0 <= i < |work| && r == record(work[i]);
      S.PendingExactly(items, keyOf, done, work[i]);
      var j :| 0 <= j < |items| && items[j] == work[i];
    }
  }

  lemma {:induction false} RunsOfItems<T(!new)>(runs: seq<Run>, items: seq<T>, keyOf: T -> Json, record: T -> Json)
    requires SameWork(runs, items, keyOf, record)
    ensures OfItems(items, record, RecordsAfterRuns(runs))
  {
    if runs != [] {
      var p := runs[..|runs| - 1];
      RunsOfItems(p, items, keyOf, record);
      WorkOfItems(items, keyOf, record, RecordsAfterRuns(p));
    }
  }

  lemma DonePlace(log: seq<Json>, k: Json) returns (j: nat)
    requires k in DoneKeys(log, false)
    ensures j < |log| && KeyOf(log[j]) == Some(k)
  {
    DoneHas(log, KeyOf, Failed, k);
    j :| 0 <= j < |log| && KeyOf(log[j]) == Some(k);
  }

  /** After a whole run every item has a record: one that was done before it, or the run's own. */
  lemma ItemRecorded<T(!new)>(log: seq<Json>, items: seq<T>, keyOf: T -> Json, record: T -> Json, n: nat)
    returns (j: nat)
    requires n < |items| && forall x :: Labelled(keyOf, record, x)
    ensures var w := log + Work(items, keyOf, record)(log); j < |w| && KeyOf(w[j]) == Some(keyOf(items[n]))
  {
    var k, done := keyOf(items[n]), DoneKeys(log, false);
    if k in done {
      j := DonePlace(log, k);
    } else {
      var work := S.Pending(items, keyOf, done);
      S.PendingExactly(items, keyOf, done, items[n]);
      var i :| 0 <= i < |work| && work[i] == items[n];
      assert Labelled(keyOf, record, work[i]);
      j := |log| + i;
    }
  }

  /** An item's key maps to its record, and no other key to anything. */
  ghost predicate Finishes<T>(m: map<Json, Json>, items: seq<T>, keyOf: T -> Json, record: T -> Json, k: Json) {
    && (k in m <==> exists i :: 0 <= i < |items| && keyOf(items[i]) == k)
    && (forall i :: 0 <= i < |items| && keyOf(items[i]) == k ==> m[k] == record(items[i]))
  }

  /** A whole run over a store of the items' records leaves every item with its record as the latest, and no other
      key. */
  lemma WholeRunRecords<T(!new)>(log: seq<Json>, items: seq<T>, keyOf: T -> Json, record: T -> Json, k: Json)
    requires OfItems(items, record, log) && Deterministic(items, keyOf, record)
             && forall x :: Labelled(keyOf, record, x)
    ensures Finishes(LatestRecords(log + Work(items, keyOf, record)(log)), items, keyOf, record, k)
  {
    var w := log + Work(items, keyOf, record)(log);
    WorkOfItems(items, keyOf, record, log);
    LatestIsLast(w, LiveKey, k);
    forall n: nat | n < |items| && keyOf(items[n]) == k ensures k in LatestRecords(w) {
      var j := ItemRecorded(log, items, keyOf, record, n);
      assert Labelled(keyOf, record, items[n]);
      assert LiveKey(w[j]) == Some(k);
    }
    if k in LatestRecords(w) {
      var l: nat :| IsLast(w, LiveKey, k, l) && LatestRecords(w)[k] == w[l];
      assert w[l] in w;
      assert OfItem(items, record, w[l]);
      var i :| 0 <= i < |items| && w[l] == record(items[i]);
      assert Labelled(keyOf, record, items[i]);
    }
  }

  lemma OneFinish<T>(a: map<Json, Json>, b: map<Json, Json>, items: seq<T>, keyOf: T -> Json, record: T -> Json)
    requires forall k :: Finishes(a, items, keyOf, record, k) && Finishes(b, items, keyOf, record, k)
    ensures a == b
  {
    forall k ensures (k in a <==> k in b) && (k in a ==> a[k] == b[k]) {
      assert Finishes(a, items, keyOf, record, k) && Finishes(b, items, keyOf, record, k);
    }
  }

  lemma EndsAlike<T(!new)>(log: seq<Json>, items: seq<T>, keyOf: T -> Json, record: T -> Json)
    requires OfItems(items, record, log) && Deterministic(items, keyOf, record)
             && forall x :: Labelled(keyOf, record, x)
    ensures LatestRecords(log + Work(items, keyOf, record)(log)) == LatestRecords(Work(items, keyOf, record)([]))
  {
    var work := Work(items, keyOf, record);
    var a, b := LatestRecords(log + work(log)), LatestRecords(work([]));
    assert [] + work([]) == work([]);
    forall k ensures Finishes(a, items, keyOf, record, k) && Finishes(b, items, keyOf, record, k) {
      WholeRunRecords(log, items, keyOf, record, k);
      WholeRunRecords([], items, keyOf, record, k);
    }
    OneFinish(a, b, items, keyOf, record);
  }

  lemma SameStaysSame<T(!new)>(runs: seq<Run>, kills: seq<Run>, items: seq<T>, keyOf: T -> Json, record: T -> Json)
    requires SameWork(runs, items, keyOf, record) && SamePrograms(runs, kills)
    ensures SameWork(kills, items, keyOf, record)
  {
    forall i | 0 <= i < |kills| ensures kills[i].program == Work(items, keyOf, record) {
      assert runs[i].program == kills[i].program;
    }
  }

  /** However often the harness was killed, and wherever in its bytes, a run that ends leaves the latest record of every
      item that one undisturbed run leaves. */
  lemma KillsAreInvisible<T(!new)>(runs: seq<Run>, loads: Reader, items: seq<T>, keyOf: T -> Json, record: T -> Json)
    requires ReaderLaw(loads) && AllWrite(runs) && SameWork(runs, items, keyOf, record)
    requires Deterministic(items, keyOf, record) && forall x :: Labelled(keyOf, record, x)
    ensures var log, work := RecordsOf(Repair(FileAfterRuns(runs, loads), loads), loads), Work(items, keyOf, record);
            LatestRecords(log + work(log)) == LatestRecords(work([]))
  {
    var kills := BytesRefineRecords(runs, loads);
    SameStaysSame(runs, kills, items, keyOf, record);
    RunsOfItems(kills, items, keyOf, record);
    EndsAlike(RecordsAfterRuns(kills), items, keyOf, record);
  }
}
