/** Ladder points as the records the store holds: the key, the arm and context, the status, and, when there are any, the
    error and the rate in decimals. They obey the law `LadderOnDisk` asks for, and the store's views by key text are the
    ladder's views by arm and context. */
module LadderCodec {
  import opened Options
  import opened Nums
  import opened Json
  import opened Log
  import opened Records
  import opened KeyedLog
  import opened LadderOnDisk
  import Ladder

  // ---- whole numbers as text ----

  function DigitChar(d: nat): (c: char)
    requires d < 10
    ensures Digit(c) && DigitValue(c) == d
  {
    "0123456789"[d]
  }

  function DigitValue(c: char): (d: nat)
    ensures d < 10
  {
    if Digit(c) then c as int - '0' as int else 0
  }

  function NatText(n: nat): (t: string)
    ensures t != ""
  {
    if n < 10 then [DigitChar(n)] else NatText(n / 10) + [DigitChar(n % 10)]
  }

  function NatValue(t: string): nat {
    if t == "" then 0 else NatValue(t[..|t| - 1]) * 10 + DigitValue(t[|t| - 1])
  }

  lemma {:induction false} NatBack(n: nat)
    ensures NatValue(NatText(n)) == n
  {
    if n >= 10 {
      NatBack(n / 10);
      var t := NatText(n);
      assert t[..|t| - 1] == NatText(n / 10);
    } else {
      assert [DigitChar(n)][..0] == "";
    }
  }

  lemma {:induction false} NatDigits(n: nat)
    ensures forall i :: 0 <= i < |NatText(n)| ==> Digit(NatText(n)[i])
    ensures NatText(n)[0] == '0' ==> n == 0
  {
    if n >= 10 { NatDigits(n / 10); }
  }

  lemma {:induction false} DigitsUpTo(t: string, rest: string)
    requires forall i :: 0 <= i < |t| ==> Digit(t[i])
    requires rest == "" || !Digit(rest[0])
    ensures Digits(t + rest) == |t|
  {
    if t == "" {
      assert t + rest == rest;
    } else {
      DigitsUpTo(t[1..], rest);
      assert (t + rest)[1..] == t[1..] + rest;
    }
  }

  lemma NatIsScalar(n: nat)
    ensures Scalar(NatText(n))
  {
    var t := NatText(n);
    NatDigits(n);
    SingleDigit(n);
    DigitsUpTo(t, "");
    assert t + "" == t && t[|t|..] == "";
  }

  lemma SingleDigit(n: nat)
    ensures NatText(n)[0] == '0' ==> |NatText(n)| == 1
  {
    NatDigits(n);
  }

  // ---- thousandths as decimals ----

  /** Up to three decimals, without trailing zeros but for the first. */
  function Decimals(f: nat): (t: string)
    requires f < 1000
    ensures 1 <= |t| <= 3 && forall i :: 0 <= i < |t| ==> Digit(t[i])
  {
    var a, b, c := DigitChar(f / 100), DigitChar(f / 10 % 10), DigitChar(f % 10);
    if f % 100 == 0 then [a] else if f % 10 == 0 then [a, b] else [a, b, c]
  }

  function DecimalsValue(t: string): nat {
    (if |t| > 0 then DigitValue(t[0]) * 100 else 0) + (if |t| > 1 then DigitValue(t[1]) * 10 else 0)
    + if |t| > 2 then DigitValue(t[2]) else 0
  }

  lemma DecimalsBack(f: nat)
    requires f < 1000
    ensures DecimalsValue(Decimals(f)) == f
  {
    assert f == f / 100 * 100 + f / 10 % 10 * 10 + f % 10;
  }

  function RateText(n: nat): string {
    NatText(n / 1000) + "." + Decimals(n % 1000)
  }

  function RateValue(t: string): nat {
    var p := Digits(t);
    NatValue(t[..p]) * 1000 + if p < |t| then DecimalsValue(t[p + 1..]) else 0
  }

  predicate AllDigits(t: string) {
    t != "" && forall i :: 0 <= i < |t| ==> Digit(t[i])
  }

  /** A whole part, a point and decimals. */
  lemma PointIsNumber(whole: string, part: string)
    requires AllDigits(whole) && AllDigits(part) && (whole[0] == '0' ==> |whole| == 1)
    ensures var t := whole + "." + part;
            Number(t) && Digits(t) == |whole| && t[..|whole|] == whole && t[|whole| + 1..] == part
  {
    var t, rest := whole + "." + part, "." + part;
    DigitsUpTo(whole, rest);
    DigitsUpTo(part, "");
    assert t == whole + rest && t[0] == whole[0];
    assert t[|whole|..] == rest && rest[1..] == part;
    assert part + "" == part && part[|part|..] == "";
    FractionOf(rest, part);
  }

  lemma FractionOf(rest: string, part: string)
    requires rest != "" && rest[0] == '.' && rest[1..] == part && part != "" && Digits(part) == |part|
    ensures Fraction(rest)
  {
    assert rest[1 + |part|..] == "";
  }

  lemma RateIsScalar(n: nat)
    ensures Scalar(RateText(n)) && RateValue(RateText(n)) == n
  {
    NatDigits(n / 1000);
    SingleDigit(n / 1000);
    NatBack(n / 1000);
    DecimalsBack(n % 1000);
    PointIsNumber(NatText(n / 1000), Decimals(n % 1000));
    RateValueOf(NatText(n / 1000), Decimals(n % 1000));
  }

  lemma RateValueOf(whole: string, part: string)
    requires AllDigits(whole) && AllDigits(part) && (whole[0] == '0' ==> |whole| == 1)
    ensures RateValue(whole + "." + part) == NatValue(whole) * 1000 + DecimalsValue(part)
  {
    PointIsNumber(whole, part);
  }

  // ---- points ----

  function StatusName(st: Ladder.Status): string {
    match st
    case Ok => "ok"
    case Oom => "oom"
    case Died => "died"
    case Timeout => "timeout"
    case Spilled => "spilled"
    case Degraded => "degraded"
    case Error => "error"
    case Skipped => "skipped_after_oom"
  }

  function StatusOf(name: string): Ladder.Status {
    if name == "ok" then Ladder.Ok
    else if name == "oom" then Ladder.Oom
    else if name == "died" then Ladder.Died
    else if name == "timeout" then Ladder.Timeout
    else if name == "spilled" then Ladder.Spilled
    else if name == "degraded" then Ladder.Degraded
    else if name == "error" then Ladder.Error
    else Ladder.Skipped
  }

  lemma StatusBack(st: Ladder.Status)
    ensures StatusOf(StatusName(st)) == st
  {}

  function KeyText(k: Ladder.Key): string {
    k.arm + "@" + NatText(k.ctx)
  }

  /** No two points share a key text. */
  lemma KeyTextInjective(a: Ladder.Key, b: Ladder.Key)
    requires KeyText(a) == KeyText(b)
    ensures a == b
  {
    LastAt(a);
    LastAt(b);
    var t := KeyText(a);
    assert |a.arm| == |b.arm|;
    assert a.arm == t[..|a.arm|] == b.arm;
    assert NatText(a.ctx) == t[|a.arm| + 1..] == NatText(b.ctx);
    NatBack(a.ctx);
    NatBack(b.ctx);
  }

  lemma LastAt(k: Ladder.Key)
    ensures KeyText(k)[|k.arm|] == '@' && forall i :: |k.arm| < i < |KeyText(k)| ==> KeyText(k)[i] != '@'
  {
    NatDigits(k.ctx);
  }

  function Thousandths(x: real): nat {
    if Round(x * 1000.0) < 0 then 0 else Round(x * 1000.0)
  }

  function Measured(rate: Option<real>): seq<Field> {
    if rate.None? then [] else [Field("sec_per_1k", Atom(RateText(Thousandths(rate.value))))]
  }

  function Error(failed: bool, message: string): seq<Field> {
    if failed then [Field("error", Str(message))] else []
  }

  function Base(r: Rec): seq<Field> {
    [Field("key", Str(KeyText(r.key))), Field("arm", Str(r.key.arm)), Field("ctx", Atom(NatText(r.key.ctx))),
     Field("status", Str(StatusName(r.status)))]
  }

  /** The record of a point; what a failure says is up to the child process. */
  function Write(r: Rec, message: string): Json {
    Obj(Base(r) + Error(r.error, message) + Measured(r.rate))
  }

  function RateOf(j: Option<Json>): Option<real> {
    match j
    case Some(Atom(t)) => Some(RateValue(t) as real / 1000.0)
    case _ => None
  }

  function Parse(j: Json): Option<Rec> {
    match (Get(j, "arm"), Get(j, "ctx"), Get(j, "status"))
    case (Some(Str(arm)), Some(Atom(ctx)), Some(Str(st))) =>
      Some(Ladder.Rec(Ladder.Key(arm, NatValue(ctx)), StatusOf(st), RateOf(Get(j, "sec_per_1k")), Failed(j)))
    case _ => None
  }

  function PointCodec(message: string): Codec {
    Codec((r: Rec) => Write(r, message), Parse)
  }

  // ---- reading fields ----

  lemma LookupOnto(fs: seq<Field>, more: seq<Field>, name: string)
    requires |more| <= 1
    ensures Lookup(fs + more, name)
         == if more != [] && more[0].name == name then Some(more[0].value) else Lookup(fs, name)
  {
    if more == [] { assert fs + more == fs; } else { assert (fs + more)[..|fs|] == fs; }
  }

  lemma NamesDiffer()
    ensures var names := ["key", "arm", "ctx", "status", "error", "sec_per_1k"];
            forall a, b :: 0 <= a < b < |names| ==> names[a] != names[b]
  {
    assert "key"[0] == 'k' && "arm"[0] == 'a' && "ctx"[0] == 'c' && "error"[0] == 'e';
    assert "status"[1] == 't' && "sec_per_1k"[1] == 'e';
  }

  lemma LookupFour(a: Field, b: Field, c: Field, d: Field, name: string)
    ensures Lookup([a, b, c, d], name)
         == if d.name == name then Some(d.value) else if c.name == name then Some(c.value)
            else if b.name == name then Some(b.value) else if a.name == name then Some(a.value) else None
  {
    LookupOnto([], [a], name);
    LookupOnto([a], [b], name);
    LookupOnto([a, b], [c], name);
    LookupOnto([a, b, c], [d], name);
    assert [] + [a] == [a] && [a] + [b] == [a, b] && [a, b] + [c] == [a, b, c] && [a, b, c] + [d] == [a, b, c, d];
  }

  lemma BaseFields(r: Rec)
    ensures Lookup(Base(r), "key") == Some(Str(KeyText(r.key))) && Lookup(Base(r), "arm") == Some(Str(r.key.arm))
    ensures Lookup(Base(r), "ctx") == Some(Atom(NatText(r.key.ctx)))
    ensures Lookup(Base(r), "status") == Some(Str(StatusName(r.status)))
    ensures Lookup(Base(r), "error") == None && Lookup(Base(r), "sec_per_1k") == None
  {
    NamesDiffer();
    var b := Base(r);
    assert b == [b[0], b[1], b[2], b[3]];
    LookupFour(b[0], b[1], b[2], b[3], "key");
    LookupFour(b[0], b[1], b[2], b[3], "arm");
    LookupFour(b[0], b[1], b[2], b[3], "ctx");
    LookupFour(b[0], b[1], b[2], b[3], "status");
    LookupFour(b[0], b[1], b[2], b[3], "error");
    LookupFour(b[0], b[1], b[2], b[3], "sec_per_1k");
  }

  lemma WrittenFields(r: Rec, message: string)
    ensures Get(Write(r, message), "key") == Some(Str(KeyText(r.key)))
    ensures Get(Write(r, message), "arm") == Some(Str(r.key.arm))
    ensures Get(Write(r, message), "ctx") == Some(Atom(NatText(r.key.ctx)))
    ensures Get(Write(r, message), "status") == Some(Str(StatusName(r.status)))
    ensures Get(Write(r, message), "error") == if r.error then Some(Str(message)) else None
    ensures Get(Write(r, message), "sec_per_1k")
         == if r.rate.Some? then Some(Atom(RateText(Thousandths(r.rate.value)))) else None
  {
    NamesDiffer();
    BaseFields(r);
    forall name: string
      ensures Get(Write(r, message), name)
           == if name == "sec_per_1k" && r.rate.Some? then Some(Measured(r.rate)[0].value)
              else if name == "error" && r.error then Some(Str(message))
              else Lookup(Base(r), name)
    {
      LookupOnto(Base(r) + Error(r.error, message), Measured(r.rate), name);
      LookupOnto(Base(r), Error(r.error, message), name);
    }
  }

  // ---- the law ----

  lemma ThousandthsBack(x: real)
    requires x >= 0.0 && Ladder.Round3(x) == x
    ensures Thousandths(x) as real / 1000.0 == x
  {
    assert Round(x * 1000.0) >= 0;
  }

  lemma RateBack(n: nat)
    ensures RateOf(Some(Atom(RateText(n)))) == Some(n as real / 1000.0)
  {
    RateIsScalar(n);
    RateOfText(RateText(n), n);
  }

  lemma RateOfText(t: string, n: nat)
    requires RateValue(t) == n
    ensures RateOf(Some(Atom(t))) == Some(n as real / 1000.0)
  {}

  lemma ParseWrite(r: Rec, message: string)
    requires Storable(r) && message != ""
    ensures Parse(Write(r, message)) == Some(r)
  {
    var j := Write(r, message);
    WrittenFields(r, message);
    NatBack(r.key.ctx);
    StatusBack(r.status);
    RateRead(r.rate);
    ParseFrom(j, r.key.arm, NatText(r.key.ctx), StatusName(r.status));
  }

  lemma SomeRate(t: string, y: real, x: real)
    requires RateOf(Some(Atom(t))) == Some(y) && y == x
    ensures RateOf(Some(Atom(t))) == Some(x)
  {}

  lemma RateRead(rate: Option<real>)
    requires rate.Some? ==> rate.value >= 0.0 && Ladder.Round3(rate.value) == rate.value
    ensures RateOf(if rate.Some? then Some(Atom(RateText(Thousandths(rate.value)))) else None) == rate
  {
    if rate.Some? {
      ThousandthsBack(rate.value);
      RateBack(Thousandths(rate.value));
      SomeRate(RateText(Thousandths(rate.value)), Thousandths(rate.value) as real / 1000.0, rate.value);
    }
  }

  lemma ParseFrom(j: Json, arm: string, ctx: string, st: string)
    requires Get(j, "arm") == Some(Str(arm)) && Get(j, "ctx") == Some(Atom(ctx)) && Get(j, "status") == Some(Str(st))
    ensures Parse(j)
         == Some(Ladder.Rec(Ladder.Key(arm, NatValue(ctx)), StatusOf(st), RateOf(Get(j, "sec_per_1k")), Failed(j)))
  {}

  lemma WriteIsRecord(r: Rec, message: string)
    ensures Record(Write(r, message))
  {
    var fs, e, m := Base(r), Error(r.error, message), Measured(r.rate);
    BaseIsWf(r);
    NamesDiffer();
    BaseNames(r);
    AddField(fs, e);
    MeasuredIsWf(r.rate);
    forall f: Field | f in fs + e ensures f.name != "sec_per_1k" { assert f in fs || f in e; }
    AddField(fs + e, m);
  }

  lemma BaseNames(r: Rec)
    ensures forall f :: f in Base(r) ==> f.name != "error" && f.name != "sec_per_1k"
  {
    NamesDiffer();
  }

  lemma MeasuredIsWf(rate: Option<real>)
    ensures rate.Some? ==> Wf(Measured(rate)[0].value)
  {
    if rate.Some? { RateIsScalar(Thousandths(rate.value)); }
  }

  ghost predicate FieldsWf(fs: seq<Field>) {
    DistinctNames(fs) && forall f :: f in fs ==> Wf(f.value)
  }

  lemma BaseIsWf(r: Rec)
    ensures FieldsWf(Base(r))
  {
    NatIsScalar(r.key.ctx);
    NamesDiffer();
  }

  lemma AddField(fs: seq<Field>, more: seq<Field>)
    requires FieldsWf(fs) && |more| <= 1
    requires more != [] ==> Wf(more[0].value) && forall f :: f in fs ==> f.name != more[0].name
    ensures FieldsWf(fs + more)
  {}

  /** The law is met, whatever failures say. */
  lemma LadderCodecIsLawful(message: string)
    requires message != ""
    ensures CodecLaw(PointCodec(message))
  {
    forall r | Storable(r) ensures Record(Write(r, message)) && Parse(Write(r, message)) == Some(r) {
      WriteIsRecord(r, message);
      ParseWrite(r, message);
    }
  }

  // ---- views by key text ----

  lemma WrittenKey(r: Rec, message: string)
    requires message != ""
    ensures KeyOf(Write(r, message)) == LiveKey(Write(r, message)) == Some(Str(KeyText(r.key)))
    ensures Failed(Write(r, message)) <==> Ladder.Failed(r)
  {
    WrittenFields(r, message);
  }

  /** The key texts the store counts as done are those of the points the ladder counts as done. */
  lemma {:induction false} DoneAgrees(rs: seq<Rec>, message: string, k: Ladder.Key)
    requires message != ""
    ensures Str(KeyText(k)) in DoneKeys(Encode(PointCodec(message), rs), false)
            <==> k in Done(rs, Ladder.KeyOf, Ladder.Failed)
  {
    if rs != [] {
      var p, r := rs[..|rs| - 1], rs[|rs| - 1];
      DoneAgrees(p, message, k);
      assert Encode(PointCodec(message), rs)[..|rs| - 1] == Encode(PointCodec(message), p);
      WrittenKey(r, message);
      if KeyText(r.key) == KeyText(k) { KeyTextInjective(r.key, k); }
    }
  }

  /** And the latest record of a key text is the written latest record of its point. */
  lemma {:induction false} LatestAgrees(rs: seq<Rec>, message: string, k: Ladder.Key)
    requires message != ""
    ensures var m, js := Latest(rs, Ladder.KeyOf), LatestRecords(Encode(PointCodec(message), rs));
            && (Str(KeyText(k)) in js <==> k in m)
            && (k in m ==> js[Str(KeyText(k))] == Write(m[k], message))
  {
    if rs != [] {
      var p, r := rs[..|rs| - 1], rs[|rs| - 1];
      LatestAgrees(p, message, k);
      assert Encode(PointCodec(message), rs)[..|rs| - 1] == Encode(PointCodec(message), p);
      WrittenKey(r, message);
      if KeyText(r.key) == KeyText(k) { KeyTextInjective(r.key, k); }
    }
  }
}
