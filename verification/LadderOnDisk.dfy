/** The ladder over the bytes of its store: a kill may leave any first part of the bytes a session writes. Every such
    history leaves what one of the record by record histories leaves, so restarts are transparent on disk exactly when
    they are there. */
module LadderOnDisk {
  import opened Options
  import opened Nums
  import opened Json
  import opened Log
  import opened Records
  import opened KeyedLog
  import opened Harness
  import Ladder
  import LadderRungs
  import LadderDoomed
  import LadderLimits
  import LadderTransparency

  type Rec = Ladder.Rec

  /** How a point is written as a record, and read off one. */
  datatype Codec = Codec(enc: Rec -> Json, dec: Json -> Option<Rec>)

  /** Rates are stored in thousandths. */
  predicate Storable(r: Rec) {
    r.rate.Some? ==> r.rate.value >= 0.0 && Ladder.Round3(r.rate.value) == r.rate.value
  }

  ghost predicate CodecLaw(c: Codec) {
    forall r :: Storable(r) ==> Record(c.enc(r)) && c.dec(c.enc(r)) == Some(r)
  }

  ghost predicate AllStorable(rs: seq<Rec>) {
    forall i :: 0 <= i < |rs| ==> Storable(rs[i])
  }

  function Encode(c: Codec, rs: seq<Rec>): (js: seq<Json>)
    ensures |js| == |rs| && forall i :: 0 <= i < |rs| ==> js[i] == c.enc(rs[i])
  {
    seq(|rs|, i requires 0 <= i < |rs| => c.enc(rs[i]))
  }

  function Decode(c: Codec, js: seq<Json>): seq<Rec> {
    if js == [] then []
    else
      var r := c.dec(js[|js| - 1]);
      Decode(c, js[..|js| - 1]) + if r.Some? then [r.value] else []
  }

  /** The ladder as a program over its store. */
  function Climbing(p: Ladder.Plan, o: Ladder.Oracle, c: Codec): seq<Json> -> seq<Json> {
    (js: seq<Json>) => Encode(c, Ladder.Session(p, o, Decode(c, js)))
  }

  /** Runs of it, cut as given. */
  function Runs(p: Ladder.Plan, o: Ladder.Oracle, c: Codec, cuts: seq<nat>): (runs: seq<Run>)
    ensures |runs| == |cuts| && forall i :: 0 <= i < |cuts| ==> runs[i] == Run(Climbing(p, o, c), cuts[i])
  {
    seq(|cuts|, i requires 0 <= i < |cuts| => Run(Climbing(p, o, c), cuts[i]))
  }

  // ---- records and their texts ----

  lemma {:induction false} DecodeEncode(c: Codec, rs: seq<Rec>)
    requires CodecLaw(c) && AllStorable(rs)
    ensures Decode(c, Encode(c, rs)) == rs
  {
    if rs != [] {
      var p := rs[..|rs| - 1];
      DecodeEncode(c, p);
      assert Encode(c, rs)[..|rs| - 1] == Encode(c, p);
      assert Storable(rs[|rs| - 1]);
    }
  }

  lemma EncodedAreRecords(c: Codec, rs: seq<Rec>)
    requires CodecLaw(c) && AllStorable(rs)
    ensures forall j :: j in Encode(c, rs) ==> Record(j)
  {
    forall i | 0 <= i < |rs| ensures Record(Encode(c, rs)[i]) { assert Storable(rs[i]); }
  }

  lemma EncodeAppend(c: Codec, a: seq<Rec>, b: seq<Rec>)
    ensures Encode(c, a + b) == Encode(c, a) + Encode(c, b)
  {}

  // ---- what the ladder appends can be stored ----

  lemma RoundedTwice(x: real)
    requires x >= 0.0
    ensures Ladder.Round3(x) >= 0.0 && Ladder.Round3(Ladder.Round3(x)) == Ladder.Round3(x)
  {
    var n := Round(x * 1000.0);
    assert n >= 0;
    assert n as real / 1000.0 * 1000.0 == n as real;
    RoundWhole(n);
  }

  lemma RoundWhole(n: int)
    ensures Round(n as real) == n
  {}

  lemma RecordIsStorable(k: Ladder.Key, r: Ladder.Raw, base: Option<real>)
    requires Ladder.RawOk(r)
    ensures Storable(Ladder.RecordOf(k, r, base))
  {
    if Ladder.RateOf(r).Some? {
      Quotient(r.wall, r.tokens as real / 1000.0);
      RoundedTwice(Ladder.RateOf(r).value);
    }
  }

  lemma Quotient(x: real, y: real)
    requires x >= 0.0 && y > 0.0
    ensures x / y >= 0.0
  {}

  lemma {:induction false} ClimbIsStorable(arm: string, ctxs: seq<nat>, stop: int, o: Ladder.Oracle,
                                           done: set<Ladder.Key>, latest: map<Ladder.Key, Rec>, s: Ladder.Live)
    requires Ladder.OracleOk(o)
    ensures AllStorable(Ladder.Climb(arm, ctxs, stop, o, done, latest, s))
    decreases |ctxs|
  {
    if ctxs != [] {
      var k := Ladder.Key(arm, ctxs[0]);
      assert Ladder.RawOk(o(k));
      RecordIsStorable(k, o(k), s.last);
      ClimbIsStorable(arm, ctxs[1..], stop, o, done, latest,
                      if k in done then (if k in latest then Ladder.ReplayStep(s, latest[k]) else s)
                      else if s.ooms >= stop then s else Ladder.LiveStep(s, k, o(k)));
    }
  }

  lemma {:induction false} ArmsAreStorable(p: Ladder.Plan, o: Ladder.Oracle, arms: seq<string>, done: set<Ladder.Key>,
                                           latest: map<Ladder.Key, Rec>)
    requires Ladder.OracleOk(o)
    ensures AllStorable(Ladder.Arms(p, o, arms, done, latest))
  {
    if arms != [] {
      ClimbIsStorable(arms[0], p.ctxs, p.stop, o, done, latest, Ladder.FRESH);
      ArmsAreStorable(p, o, arms[1..], done, latest);
    }
  }

  lemma SessionIsStorable(p: Ladder.Plan, o: Ladder.Oracle, log: seq<Rec>)
    requires Ladder.OracleOk(o)
    ensures AllStorable(Ladder.Session(p, o, log))
  {
    ArmsAreStorable(p, o, p.arms, Done(log, Ladder.KeyOf, Ladder.Failed), Latest(log, Ladder.KeyOf));
  }

  lemma {:induction false} KilledIsStorable(p: Ladder.Plan, o: Ladder.Oracle, kills: seq<nat>)
    requires Ladder.OracleOk(o)
    ensures AllStorable(LadderRungs.Killed(p, o, kills))
  {
    if kills != [] {
      KilledIsStorable(p, o, kills[..|kills| - 1]);
      SessionIsStorable(p, o, LadderRungs.Killed(p, o, kills[..|kills| - 1]));
    }
  }

  lemma ClimbingWrites(p: Ladder.Plan, o: Ladder.Oracle, c: Codec)
    requires Ladder.OracleOk(o) && CodecLaw(c)
    ensures Writes(Climbing(p, o, c))
  {
    forall js ensures AllRecords(Climbing(p, o, c)(js)) {
      SessionIsStorable(p, o, Decode(c, js));
      EncodedAreRecords(c, Ladder.Session(p, o, Decode(c, js)));
    }
  }

  // ---- kills between records ----

  lemma PartEncoded(c: Codec, s: seq<Rec>, cut: nat)
    ensures Part(Encode(c, s), cut) == Encode(c, Part(s, cut))
  {}

  lemma RunsSnoc(p: Ladder.Plan, o: Ladder.Oracle, c: Codec, kills: seq<nat>, log: seq<Rec>)
    requires kills != [] && Decode(c, Encode(c, log)) == log
    requires RecordsAfterRuns(Runs(p, o, c, kills[..|kills| - 1])) == Encode(c, log)
    ensures RecordsAfterRuns(Runs(p, o, c, kills))
            == Encode(c, log) + Part(Encode(c, Ladder.Session(p, o, log)), kills[|kills| - 1])
  {
    var runs := Runs(p, o, c, kills);
    assert runs[..|runs| - 1] == Runs(p, o, c, kills[..|kills| - 1]);
  }

  /** Runs of the program cut between records are the ladder's own kills. */
  lemma {:induction false} RunsAreKills(p: Ladder.Plan, o: Ladder.Oracle, c: Codec, kills: seq<nat>)
    requires Ladder.OracleOk(o) && CodecLaw(c)
    ensures RecordsAfterRuns(Runs(p, o, c, kills)) == Encode(c, LadderRungs.Killed(p, o, kills))
  {
    if kills != [] {
      var before, k := kills[..|kills| - 1], kills[|kills| - 1];
      var log := LadderRungs.Killed(p, o, before);
      RunsAreKills(p, o, c, before);
      KilledIsStorable(p, o, before);
      DecodeEncode(c, log);
      PartEncoded(c, Ladder.Session(p, o, log), k);
      EncodeAppend(c, log, Part(Ladder.Session(p, o, log), k));
      RunsSnoc(p, o, c, kills, log);
    }
  }

  lemma SameClimb(p: Ladder.Plan, o: Ladder.Oracle, c: Codec, cuts: seq<nat>, kills: seq<Run>) returns (ks: seq<nat>)
    requires SamePrograms(Runs(p, o, c, cuts), kills)
    ensures kills == Runs(p, o, c, ks)
  {
    ks := seq(|kills|, i requires 0 <= i < |kills| => kills[i].cut);
    forall i | 0 <= i < |kills| ensures kills[i] == Runs(p, o, c, ks)[i] {
      assert Runs(p, o, c, cuts)[i].program == kills[i].program;
    }
  }

  lemma RunsWrite(p: Ladder.Plan, o: Ladder.Oracle, c: Codec, cuts: seq<nat>)
    requires Ladder.OracleOk(o) && CodecLaw(c)
    ensures AllWrite(Runs(p, o, c, cuts))
  {
    ClimbingWrites(p, o, c);
  }

  /** Every history of kills anywhere in the bytes leaves what some history of kills between records leaves. */
  lemma BytesLeaveKills(p: Ladder.Plan, o: Ladder.Oracle, c: Codec, loads: Reader, cuts: seq<nat>)
    returns (kills: seq<nat>)
    requires Ladder.OracleOk(o) && ReaderLaw(loads) && CodecLaw(c)
    ensures Repair(FileAfterRuns(Runs(p, o, c, cuts), loads), loads) == Text(Encode(c, LadderRungs.Killed(p, o, kills)))
  {
    RunsWrite(p, o, c, cuts);
    var runs := BytesRefineRecords(Runs(p, o, c, cuts), loads);
    kills := SameClimb(p, o, c, cuts, runs);
    RunsAreKills(p, o, c, kills);
  }

  /** And every history of kills between records can happen on disk. */
  lemma KillsHappen(p: Ladder.Plan, o: Ladder.Oracle, c: Codec, loads: Reader, kills: seq<nat>) returns (cuts: seq<nat>)
    requires Ladder.OracleOk(o) && ReaderLaw(loads) && CodecLaw(c)
    ensures Repair(FileAfterRuns(Runs(p, o, c, cuts), loads), loads) == Text(Encode(c, LadderRungs.Killed(p, o, kills)))
  {
    RunsWrite(p, o, c, kills);
    var runs := RecordsHappen(Runs(p, o, c, kills), loads);
    SameBack(Runs(p, o, c, kills), runs);
    cuts := SameClimb(p, o, c, kills, runs);
    RunsAreKills(p, o, c, kills);
    RepairClean(Encode(c, LadderRungs.Killed(p, o, kills)), loads);
  }

  lemma SameBack(a: seq<Run>, b: seq<Run>)
    requires SamePrograms(b, a)
    ensures SamePrograms(a, b)
  {
    forall i | 0 <= i < |a| ensures a[i].program == b[i].program { assert b[i].program == a[i].program; }
  }

  // ---- transparency ----

  /** What a last, undisturbed run leaves in the store: the latest record of every point. */
  function Finished(p: Ladder.Plan, o: Ladder.Oracle, c: Codec, loads: Reader, cuts: seq<nat>): map<Ladder.Key, Rec> {
    var file := Repair(FileAfterRuns(Runs(p, o, c, cuts), loads), loads);
    var ended := file + Text(Climbing(p, o, c)(RecordsOf(file, loads)));
    Latest(Decode(c, RecordsOf(ended, loads)), Ladder.KeyOf)
  }

  ghost predicate TransparentOnDisk(p: Ladder.Plan, o: Ladder.Oracle, c: Codec, loads: Reader) {
    forall cuts: seq<nat> :: Finished(p, o, c, loads, cuts) == Latest(Ladder.Session(p, o, []), Ladder.KeyOf)
  }

  /** The latest records once a run over a killed store has ended. */
  function Ended(p: Ladder.Plan, o: Ladder.Oracle, kills: seq<nat>): map<Ladder.Key, Rec> {
    var log := LadderRungs.Killed(p, o, kills);
    Latest(log + Ladder.Session(p, o, log), Ladder.KeyOf)
  }

  lemma StoredBack(c: Codec, rs: seq<Rec>, loads: Reader)
    requires ReaderLaw(loads) && CodecLaw(c) && AllStorable(rs)
    ensures Decode(c, RecordsOf(Text(Encode(c, rs)), loads)) == rs
  {
    EncodedAreRecords(c, rs);
    ReadsBack(Encode(c, rs), loads);
    DecodeEncode(c, rs);
  }

  lemma GrownBack(c: Codec, log: seq<Rec>, s: seq<Rec>, loads: Reader)
    requires ReaderLaw(loads) && CodecLaw(c) && AllStorable(log) && AllStorable(s)
    ensures Decode(c, RecordsOf(Text(Encode(c, log)) + Text(Encode(c, s)), loads)) == log + s
  {
    EncodeAppend(c, log, s);
    TextAppend(Encode(c, log), Encode(c, s));
    StoredBack(c, log + s, loads);
  }

  lemma FinishedIs(p: Ladder.Plan, o: Ladder.Oracle, c: Codec, loads: Reader, cuts: seq<nat>, kills: seq<nat>)
    requires Ladder.OracleOk(o) && ReaderLaw(loads) && CodecLaw(c)
    requires Repair(FileAfterRuns(Runs(p, o, c, cuts), loads), loads)
             == Text(Encode(c, LadderRungs.Killed(p, o, kills)))
    ensures Finished(p, o, c, loads, cuts) == Ended(p, o, kills)
  {
    var log := LadderRungs.Killed(p, o, kills);
    var s := Ladder.Session(p, o, log);
    KilledIsStorable(p, o, kills);
    SessionIsStorable(p, o, log);
    StoredBack(c, log, loads);
    GrownBack(c, log, s, loads);
  }

  /** On disk restarts are transparent exactly when they are record by record. */
  lemma OnDiskIff(p: Ladder.Plan, o: Ladder.Oracle, c: Codec, loads: Reader)
    requires Ladder.OracleOk(o) && ReaderLaw(loads) && CodecLaw(c)
    ensures TransparentOnDisk(p, o, c, loads) <==> LadderLimits.RestartTransparent(p, o)
  {
    var clean := Latest(Ladder.Session(p, o, []), Ladder.KeyOf);
    if TransparentOnDisk(p, o, c, loads) {
      forall kills: seq<nat>
        ensures var log := LadderRungs.Killed(p, o, kills);
                Latest(log + Ladder.Session(p, o, log), Ladder.KeyOf) == clean
      {
        var cuts := KillsHappen(p, o, c, loads, kills);
        FinishedIs(p, o, c, loads, cuts, kills);
        assert Finished(p, o, c, loads, cuts) == Ended(p, o, kills);
      }
    }
    if LadderLimits.RestartTransparent(p, o) {
      forall cuts: seq<nat> ensures Finished(p, o, c, loads, cuts) == clean {
        var kills := BytesLeaveKills(p, o, c, loads, cuts);
        FinishedIs(p, o, c, loads, cuts, kills);
        assert Ended(p, o, kills) == clean;
      }
    }
  }

  /** Hence exactly when every arm is resumable. */
  lemma TransparentOnDiskIff(p: Ladder.Plan, o: Ladder.Oracle, c: Codec, loads: Reader)
    requires Ladder.OracleOk(o) && LadderRungs.Sorted(p.ctxs) && ReaderLaw(loads) && CodecLaw(c)
    ensures TransparentOnDisk(p, o, c, loads) <==> LadderDoomed.AllResumable(p, o)
  {
    OnDiskIff(p, o, c, loads);
    LadderTransparency.TransparentIff(p, o);
  }
}
