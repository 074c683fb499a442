/** What the usage protocol of the store guarantees: resumed sessions append only keys that were not
    done when they opened, each at most once. */
module Sessions {
  import opened Options
  import opened Json
  import opened Records
  import opened KeyedLog
  import S = Store

  /** A record a harness appends: it carries a key. */
  predicate Keyed(j: Json) {
    KeyOf(j).Some? && KeyOf(j).value != NULL
  }

  /** What one session appended before it finished or crashed: fresh keys, each at most once. */
  ghost predicate SessionOk(log: seq<Json>, s: seq<Json>) {
    && (forall i :: 0 <= i < |s| ==> Keyed(s[i]) && KeyOf(s[i]).value !in DoneKeys(log, false))
    && forall i, j :: 0 <= i < j < |s| ==> KeyOf(s[i]) != KeyOf(s[j])
  }

  function LogAfter(sessions: seq<seq<Json>>): seq<Json> {
    if sessions == [] then [] else LogAfter(sessions[..|sessions| - 1]) + sessions[|sessions| - 1]
  }

  ghost predicate Protocol(sessions: seq<seq<Json>>) {
    sessions == [] ||
    (Protocol(sessions[..|sessions| - 1])
     && SessionOk(LogAfter(sessions[..|sessions| - 1]), sessions[|sessions| - 1]))
  }

  /** A session that crashes early is still a session: any prefix of what it would have appended. */
  lemma CrashKeepsProtocol(log: seq<Json>, s: seq<Json>, k: nat)
    requires SessionOk(log, s) && k <= |s|
    ensures SessionOk(log, s[..k])
  {}

  /** No key is recorded again once it succeeded. */
  ghost predicate SuccessIsLast(log: seq<Json>) {
    && (forall i :: 0 <= i < |log| ==> Keyed(log[i]))
    && forall i, j :: 0 <= i < j < |log| && !Failed(log[i]) ==> KeyOf(log[i]) != KeyOf(log[j])
  }

  lemma SessionKeeps(log: seq<Json>, s: seq<Json>)
    requires SuccessIsLast(log) && SessionOk(log, s)
    ensures SuccessIsLast(log + s)
  {
    var w := log + s;
    forall i, j | 0 <= i < j < |w| && !Failed(w[i]) ensures KeyOf(w[i]) != KeyOf(w[j]) {
      if i < |log| <= j {
        DoneHas(log, KeyOf, Failed, KeyOf(s[j - |log|]).value);
      }
    }
  }

  /** In every log the protocol can produce, across any crashes and retries, a key has at most one
      record without an error, and nothing after it. */
  lemma {:induction false} ProtocolSuccessIsLast(sessions: seq<seq<Json>>)
    requires Protocol(sessions)
    ensures SuccessIsLast(LogAfter(sessions))
  {
    if sessions != [] {
      ProtocolSuccessIsLast(sessions[..|sessions| - 1]);
      SessionKeeps(LogAfter(sessions[..|sessions| - 1]), sessions[|sessions| - 1]);
    }
  }

  /** Hence the keys a resume skips are exactly those whose latest record carries no error. */
  lemma DoneIsLatestOk(sessions: seq<seq<Json>>, k: Json)
    requires Protocol(sessions)
    ensures var log := LogAfter(sessions);
            k in DoneKeys(log, false) <==> k in LatestRecords(log) && !Failed(LatestRecords(log)[k])
  {
    var log := LogAfter(sessions);
    ProtocolSuccessIsLast(sessions);
    DoneHas(log, KeyOf, Failed, k);
    LatestIsLast(log, LiveKey, k);
    if k in DoneKeys(log, false) {
      var i :| 0 <= i < |log| && !Failed(log[i]) && KeyOf(log[i]) == Some(k);
      assert Keyed(log[i]) && LiveKey(log[i]) == Some(k);
      var l: nat :| IsLast(log, LiveKey, k, l) && LatestRecords(log)[k] == log[l];
      assert KeyOf(log[l]) == Some(k);
    }
  }

  /** The record appended for an item carries the item's key. */
  predicate Labelled<T(!new)>(keyOf: T -> Json, record: T -> Json, x: T) {
    Keyed(record(x)) && KeyOf(record(x)) == Some(keyOf(x))
  }

  /** One record for each item not done, in order. */
  ghost predicate IsWork<T>(log: seq<Json>, items: seq<T>, keyOf: T -> Json, record: T -> Json, s: seq<Json>) {
    var work := S.Pending(items, keyOf, DoneKeys(log, false));
    |s| == |work| && forall i :: 0 <= i < |s| ==> s[i] == record(work[i])
  }

  lemma DistinctWork<T(!new)>(log: seq<Json>, items: seq<T>, keyOf: T -> Json, record: T -> Json, s: seq<Json>)
    requires forall x :: Labelled(keyOf, record, x)
    requires IsWork(log, items, keyOf, record, s)
    requires S.DistinctKeys(S.Pending(items, keyOf, DoneKeys(log, false)), keyOf)
    ensures SessionOk(log, s)
  {
    var done := DoneKeys(log, false);
    var work := S.Pending(items, keyOf, done);
    forall i | 0 <= i < |s| ensures Keyed(s[i]) && KeyOf(s[i]).value !in done {
      S.PendingExactly(items, keyOf, done, work[i]);
      assert Labelled(keyOf, record, work[i]);
    }
    forall i, j | 0 <= i < j < |s| ensures KeyOf(s[i]) != KeyOf(s[j]) {
      assert keyOf(work[i]) != keyOf(work[j]);
      assert Labelled(keyOf, record, work[i]) && Labelled(keyOf, record, work[j]);
    }
  }

  /** The harness's work list is such a session: from items with distinct keys it takes those not done
      and appends one record for each. */
  lemma WorkListIsSession<T(!new)>(log: seq<Json>, items: seq<T>, keyOf: T -> Json, record: T -> Json, s: seq<Json>)
    requires S.DistinctKeys(items, keyOf)
    requires forall x :: Labelled(keyOf, record, x)
    requires IsWork(log, items, keyOf, record, s)
    ensures SessionOk(log, s)
  {
    S.PendingDistinct(items, keyOf, DoneKeys(log, false));
    WorkListIff(log, items, keyOf, record, s);
  }

  /** Distinct keys among the pending items are exactly what the protocol needs: over any log and item list the
      harness's records are a session if and only if no pending key repeats. */
  lemma WorkListIff<T(!new)>(log: seq<Json>, items: seq<T>, keyOf: T -> Json, record: T -> Json, s: seq<Json>)
    requires forall x :: Labelled(keyOf, record, x)
    requires IsWork(log, items, keyOf, record, s)
    ensures SessionOk(log, s) <==> S.DistinctKeys(S.Pending(items, keyOf, DoneKeys(log, false)), keyOf)
  {
    var work := S.Pending(items, keyOf, DoneKeys(log, false));
    if S.DistinctKeys(work, keyOf) {
      DistinctWork(log, items, keyOf, record, s);
    } else {
      var i, j :| 0 <= i < j < |work| && keyOf(work[i]) == keyOf(work[j]);
      assert Labelled(keyOf, record, work[i]) && Labelled(keyOf, record, work[j]);
      assert KeyOf(s[i]) == KeyOf(s[j]);
    }
  }

  /** An item listed twice: when every pending item succeeds and a pending key repeats, some key is recorded as a
      success twice. */
  lemma RepeatedItemSucceedsTwice<T(!new)>(log: seq<Json>, items: seq<T>, keyOf: T -> Json, record: T -> Json,
                                           s: seq<Json>)
    requires forall x :: Labelled(keyOf, record, x)
    requires IsWork(log, items, keyOf, record, s) && forall i :: 0 <= i < |s| ==> !Failed(s[i])
    requires !S.DistinctKeys(S.Pending(items, keyOf, DoneKeys(log, false)), keyOf)
    ensures !SuccessIsLast(log + s)
  {
    var work := S.Pending(items, keyOf, DoneKeys(log, false));
    var i, j :| 0 <= i < j < |work| && keyOf(work[i]) == keyOf(work[j]);
    assert Labelled(keyOf, record, work[i]) && Labelled(keyOf, record, work[j]);
    var a, b := |log| + i, |log| + j;
    assert (log + s)[a] == s[i] && (log + s)[b] == s[j];
  }
}
