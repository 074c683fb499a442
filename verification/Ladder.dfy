/** The context ladder: per arm, rungs of increasing context climbed until consecutive ceilings stop
    it, replaying what the store already holds. A rung's measurement is an oracle of (arm, context). */
module Ladder {
  import opened Options
  import opened Nums
  import opened KeyedLog

  datatype Status = Ok | Oom | Died | Timeout | Spilled | Degraded | Error | Skipped

  /** What a child process reports, or the parent in its place. `wall` seconds over `tokens`. */
  datatype Raw = Raw(status: Status, wall: real, tokens: nat, error: bool)

  datatype Key = Key(arm: string, ctx: nat)

  /** A stored point; `rate` is seconds per thousand tokens as recorded. */
  datatype Rec = Rec(key: Key, status: Status, rate: Option<real>, error: bool)

  type Oracle = Key -> Raw

  const CLIFF: real := 2.5

  /** Python's `round(x, 3)` over exact numbers. */
  function Round3(x: real): real {
    Round(x * 1000.0) as real / 1000.0
  }

  predicate Ceiling(st: Status) {
    st in {Oom, Died, Timeout, Spilled, Degraded}
  }

  /** Failures carry an error message; a crash that is not a ceiling always does. */
  predicate RawOk(r: Raw) {
    && r.status !in {Degraded, Skipped} && r.wall >= 0.0
    && (r.error ==> r.status in {Oom, Error}) && (r.status == Error ==> r.error)
  }

  ghost predicate OracleOk(o: Oracle) {
    forall k :: RawOk(o(k))
  }

  /** Measured rate of a point that completed, when both quantities are there. */
  function RateOf(r: Raw): Option<real> {
    if r.status == Ok && r.wall != 0.0 && r.tokens != 0 then Some(r.wall / (r.tokens as real / 1000.0)) else None
  }

  predicate Cliff(rate: Option<real>, base: Option<real>) {
    rate.Some? && base.Some? && rate.value > base.value * CLIFF
  }

  function RecordOf(k: Key, r: Raw, base: Option<real>): Rec {
    Rec(k, if Cliff(RateOf(r), base) then Degraded else r.status,
        if RateOf(r).Some? then Some(Round3(RateOf(r).value)) else None, r.error)
  }

  /** The loop's state: consecutive ceilings, and the rate of the last point that passed. */
  datatype Live = Live(ooms: nat, last: Option<real>)

  const FRESH := Live(0, None)

  function Counted(ooms: nat, st: Status): nat {
    if Ceiling(st) then ooms + 1 else 0
  }

  /** Launching a rung. */
  function LiveStep(s: Live, k: Key, r: Raw): Live {
    Live(Counted(s.ooms, RecordOf(k, r, s.last).status),
         if RateOf(r).Some? && !Cliff(RateOf(r), s.last) then RateOf(r) else s.last)
  }

  /** Replaying a recorded rung. */
  function ReplayStep(s: Live, rec: Rec): Live {
    if Ceiling(rec.status) then s.(ooms := s.ooms + 1)
    else if rec.status == Ok then
      Live(0, if rec.rate.Some? && rec.rate.value != 0.0 then rec.rate else s.last)
    else s
  }

  /** What one arm's climb appends. `done` and `latest` are what the store held on opening. */
  function Climb(arm: string, ctxs: seq<nat>, stop: int, o: Oracle, done: set<Key>, latest: map<Key, Rec>,
                 s: Live): (recs: seq<Rec>)
    decreases |ctxs|
  {
    if ctxs == [] then []
    else
      var k := Key(arm, ctxs[0]);
      if k in done then
        Climb(arm, ctxs[1..], stop, o, done, latest, if k in latest then ReplayStep(s, latest[k]) else s)
      else if s.ooms >= stop then
        [Rec(k, Skipped, None, false)] + Climb(arm, ctxs[1..], stop, o, done, latest, s)
      else
        [RecordOf(k, o(k), s.last)] + Climb(arm, ctxs[1..], stop, o, done, latest, LiveStep(s, k, o(k)))
  }

  function KeyOf(r: Rec): Option<Key> {
    Some(r.key)
  }

  predicate Failed(r: Rec) {
    r.error
  }

  datatype Plan = Plan(arms: seq<string>, ctxs: seq<nat>, stop: int)

  /** One run of the harness over a store: every arm in turn. */
  function Session(p: Plan, o: Oracle, log: seq<Rec>): seq<Rec> {
    Arms(p, o, p.arms, Done(log, KeyOf, Failed), Latest(log, KeyOf))
  }

  function Arms(p: Plan, o: Oracle, arms: seq<string>, done: set<Key>, latest: map<Key, Rec>): seq<Rec> {
    if arms == [] then []
    else Climb(arms[0], p.ctxs, p.stop, o, done, latest, FRESH) + Arms(p, o, arms[1..], done, latest)
  }

  // ---- the imperative loop ----

  method RunArm(arm: string, ctxs: seq<nat>, stop: int, o: Oracle, done: set<Key>, latest: map<Key, Rec>,
                store: seq<Rec>)
    returns (after: seq<Rec>)
    ensures after == store + Climb(arm, ctxs, stop, o, done, latest, FRESH)
  {
    after := store;
    var ooms: nat, lastRate: Option<real> := 0, None;
    for i := 0 to |ctxs|
      invariant after + Climb(arm, ctxs[i..], stop, o, done, latest, Live(ooms, lastRate))
             == store + Climb(arm, ctxs, stop, o, done, latest, FRESH)
    {
      ghost var before := Live(ooms, lastRate);
      var k := Key(arm, ctxs[i]);
      assert ctxs[i..][0] == ctxs[i] && ctxs[i..][1..] == ctxs[i + 1..];
      if k in done {
        if k in latest {
          var prev := latest[k];
          if Ceiling(prev.status) {
            ooms := ooms + 1;
          } else if prev.status == Ok {
            ooms := 0;
            if prev.rate.Some? && prev.rate.value != 0.0 {
              lastRate := prev.rate;
            }
          }
          assert Live(ooms, lastRate) == ReplayStep(before, prev);
        }
      } else if ooms >= stop {
        after := after + [Rec(k, Skipped, None, false)];
      } else {
        var res := o(k);
        var status, rate := res.status, None;
        if res.status == Ok && res.wall != 0.0 && res.tokens != 0 {
          var secPer1k := res.wall / (res.tokens as real / 1000.0);
          rate := Some(Round3(secPer1k));
          if lastRate.Some? && secPer1k > lastRate.value * CLIFF {
            status := Degraded;
          } else {
            lastRate := Some(secPer1k);
          }
        }
        after := after + [Rec(k, status, rate, res.error)];
        ooms := if Ceiling(status) then ooms + 1 else 0;
        assert Rec(k, status, rate, res.error) == RecordOf(k, res, before.last);
        assert Live(ooms, lastRate) == LiveStep(before, k, res);
      }
    }
  }

  /** One run over a store. */
  method Run(p: Plan, o: Oracle, store: seq<Rec>) returns (after: seq<Rec>)
    ensures after == store + Session(p, o, store)
  {
    var done, latest := Done(store, KeyOf, Failed), Latest(store, KeyOf);
    after := store;
    for i := 0 to |p.arms|
      invariant after + Arms(p, o, p.arms[i..], done, latest) == store + Session(p, o, store)
    {
      assert p.arms[i..][0] == p.arms[i] && p.arms[i..][1..] == p.arms[i + 1..];
      after := RunArm(p.arms[i], p.ctxs, p.stop, o, done, latest, after);
    }
  }
}
