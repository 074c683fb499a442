/** Views of an append-only log of keyed records: the last record of every key, and the keys with a
    record that counts as done. */
module KeyedLog {
  import opened Options

  /** Last record wins. */
  function Latest<K, R>(rs: seq<R>, keyOf: R -> Option<K>): (m: map<K, R>) {
    if rs == [] then map[]
    else
      var r, m := rs[|rs| - 1], Latest(rs[..|rs| - 1], keyOf);
      if keyOf(r).None? then m else m[keyOf(r).value := r]
  }

  /** Keys with some record that did not fail. */
  function Done<K, R>(rs: seq<R>, keyOf: R -> Option<K>, failed: R -> bool): (done: set<K>) {
    if rs == [] then {}
    else
      var r := rs[|rs| - 1];
      Done(rs[..|rs| - 1], keyOf, failed) + if keyOf(r).None? || failed(r) then {} else {keyOf(r).value}
  }

  lemma {:induction false} DoneHas<K, R>(rs: seq<R>, keyOf: R -> Option<K>, failed: R -> bool, k: K)
    ensures k in Done(rs, keyOf, failed) <==> exists i :: 0 <= i < |rs| && !failed(rs[i]) && keyOf(rs[i]) == Some(k)
  {
    if rs != [] {
      var p := rs[..|rs| - 1];
      DoneHas(p, keyOf, failed, k);
      if k in Done(p, keyOf, failed) {
        var i :| 0 <= i < |p| && !failed(p[i]) && keyOf(p[i]) == Some(k);
        assert rs[i] == p[i];
      }
      if i :| 0 <= i < |rs| && !failed(rs[i]) && keyOf(rs[i]) == Some(k) {
        if i < |p| { assert p[i] == rs[i]; }
      }
    }
  }

  /** `r` is the last record of key `k`. */
  ghost predicate IsLast<K, R>(rs: seq<R>, keyOf: R -> Option<K>, k: K, i: nat) {
    i < |rs| && keyOf(rs[i]) == Some(k) && forall j :: i < j < |rs| ==> keyOf(rs[j]) != Some(k)
  }

  lemma {:induction false} LatestIsLast<K, R>(rs: seq<R>, keyOf: R -> Option<K>, k: K)
    ensures k in Latest(rs, keyOf) <==> exists i :: 0 <= i < |rs| && keyOf(rs[i]) == Some(k)
    ensures k in Latest(rs, keyOf) ==> exists i: nat :: IsLast(rs, keyOf, k, i) && Latest(rs, keyOf)[k] == rs[i]
  {
    if rs != [] {
      var p, x := rs[..|rs| - 1], rs[|rs| - 1];
      LatestIsLast(p, keyOf, k);
      assert rs == p + [x];
      if keyOf(x) == Some(k) {
        assert IsLast(rs, keyOf, k, |rs| - 1);
      } else if k in Latest(p, keyOf) {
        var i: nat :| IsLast(p, keyOf, k, i) && Latest(p, keyOf)[k] == p[i];
        assert rs[i] == p[i] && IsLast(rs, keyOf, k, i);
      }
      if i :| 0 <= i < |rs| && keyOf(rs[i]) == Some(k) {
        if i < |p| { assert p[i] == rs[i]; }
      }
    }
  }

  lemma {:induction false} LatestAppend<K, R>(a: seq<R>, b: seq<R>, keyOf: R -> Option<K>)
    ensures Latest(a + b, keyOf) == Latest(a, keyOf) + Latest(b, keyOf)
  {
    if b == [] {
      assert a + b == a;
    } else {
      LatestAppend(a, b[..|b| - 1], keyOf);
      assert (a + b)[..|a + b| - 1] == a + b[..|b| - 1];
    }
  }
}
