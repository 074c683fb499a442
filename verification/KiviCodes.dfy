/** The packed low-bit codec of the KIVI cache: codes in bytes, per-group scale and zero. */
module KiviCodes {
  import opened Nums

  type Byte = bv8

  /** The two packed widths; sixteen-bit storage keeps tensors as they are and is not a code. */
  datatype Width = Two | Four {
    function Levels(): (n: nat) ensures n == 3 || n == 15 {
      if Two? then 3 else 15
    }

    function PerByte(): (n: nat) ensures n == 4 || n == 2 {
      if Two? then 4 else 2
    }
  }

  // ---- packing ----

  function Join4(a: Byte, b: Byte): Byte {
    a | (b << 4)
  }

  function Join2(a: Byte, b: Byte, c: Byte, d: Byte): Byte {
    a | (b << 2) | (c << 4) | (d << 6)
  }

  /** The `i`-th code held by a byte at four bits. */
  function Code4(p: Byte, i: nat): Byte
    requires i < 2
  {
    if i == 0 then p & 15 else p >> 4
  }

  /** The `i`-th code held by a byte at two bits. */
  function Code2(p: Byte, i: nat): Byte
    requires i < 4
  {
    if i == 0 then p & 3
    else if i == 1 then (p >> 2) & 3
    else if i == 2 then (p >> 4) & 3
    else p >> 6
  }

  function Pack4(q: seq<Byte>): (p: seq<Byte>)
    requires |q| % 2 == 0
    ensures |p| == |q| / 2
  {
    seq(|q| / 2, i requires 0 <= i < |q| / 2 => Join4(q[2 * i], q[2 * i + 1]))
  }

  function Unpack4(p: seq<Byte>): (q: seq<Byte>)
    ensures |q| == 2 * |p|
  {
    seq(2 * |p|, i requires 0 <= i < 2 * |p| => Code4(p[i / 2], i % 2))
  }

  function Pack2(q: seq<Byte>): (p: seq<Byte>)
    requires |q| % 4 == 0
    ensures |p| == |q| / 4
  {
    seq(|q| / 4, i requires 0 <= i < |q| / 4 => Join2(q[4 * i], q[4 * i + 1], q[4 * i + 2], q[4 * i + 3]))
  }

  function Unpack2(p: seq<Byte>): (q: seq<Byte>)
    ensures |q| == 4 * |p|
  {
    seq(4 * |p|, i requires 0 <= i < 4 * |p| => Code2(p[i / 4], i % 4))
  }

  function Pack(w: Width, q: seq<Byte>): (p: seq<Byte>)
    requires |q| % w.PerByte() == 0
  {
    if w.Two? then Pack2(q) else Pack4(q)
  }

  function Unpack(w: Width, p: seq<Byte>): (q: seq<Byte>)
    ensures |q| == w.PerByte() * |p|
  {
    if w.Two? then Unpack2(p) else Unpack4(p)
  }

  ghost predicate InRange(w: Width, q: seq<Byte>) {
    forall i :: 0 <= i < |q| ==> q[i] as int <= w.Levels()
  }

  lemma Nibbles(a: Byte, b: Byte, p: Byte)
    ensures a < 16 && b < 16 ==> Code4(Join4(a, b), 0) == a && Code4(Join4(a, b), 1) == b
    ensures Join4(Code4(p, 0), Code4(p, 1)) == p && Code4(p, 0) < 16 && Code4(p, 1) < 16
  {}

  lemma Pairs(a: Byte, b: Byte, c: Byte, d: Byte, p: Byte)
    ensures a < 4 && b < 4 && c < 4 && d < 4 ==>
              var r := Join2(a, b, c, d);
              Code2(r, 0) == a && Code2(r, 1) == b && Code2(r, 2) == c && Code2(r, 3) == d
    ensures Join2(Code2(p, 0), Code2(p, 1), Code2(p, 2), Code2(p, 3)) == p
    ensures Code2(p, 0) < 4 && Code2(p, 1) < 4 && Code2(p, 2) < 4 && Code2(p, 3) < 4
  {}

  lemma RoundTrip4(q: seq<Byte>)
    requires |q| % 2 == 0 && forall i :: 0 <= i < |q| ==> q[i] < 16
    ensures Unpack4(Pack4(q)) == q
  {
    var p := Pack4(q);
    forall i | 0 <= i < |q| ensures Unpack4(p)[i] == q[i] {
      var b := i / 2;
      assert p[b] == Join4(q[2 * b], q[2 * b + 1]);
      Nibbles(q[2 * b], q[2 * b + 1], 0);
    }
  }

  lemma RoundTrip2(q: seq<Byte>)
    requires |q| % 4 == 0 && forall i :: 0 <= i < |q| ==> q[i] < 4
    ensures Unpack2(Pack2(q)) == q
  {
    var p := Pack2(q);
    forall i | 0 <= i < |q| ensures Unpack2(p)[i] == q[i] {
      var b := i / 4;
      assert p[b] == Join2(q[4 * b], q[4 * b + 1], q[4 * b + 2], q[4 * b + 3]);
      Pairs(q[4 * b], q[4 * b + 1], q[4 * b + 2], q[4 * b + 3], 0);
    }
  }

  lemma FitsWidth(b: Byte, w: Width)
    ensures b as int <= w.Levels() <==> b < (if w.Two? then 4 else 16)
  {}

  /** Unpacking undoes packing on every row of codes that fit the width. */
  lemma UnpackPack(w: Width, q: seq<Byte>)
    requires |q| % w.PerByte() == 0 && InRange(w, q)
    ensures Unpack(w, Pack(w, q)) == q
  {
    forall i | 0 <= i < |q| ensures q[i] < (if w.Two? then 4 else 16) {
      FitsWidth(q[i], w);
    }
    if w.Two? { RoundTrip2(q); } else { RoundTrip4(q); }
  }

  /** Packing undoes unpacking on every byte string, and unpacked codes always fit the width. */
  lemma PackUnpack(w: Width, p: seq<Byte>)
    ensures InRange(w, Unpack(w, p)) && Pack(w, Unpack(w, p)) == p
  {
    var q := Unpack(w, p);
    forall i | 0 <= i < |q| ensures q[i] as int <= w.Levels() {
      CodesFit(w, p, i);
    }
    forall i | 0 <= i < |p| ensures Pack(w, q)[i] == p[i] {
      Repacked(w, p, i);
    }
  }

  lemma CodesFit(w: Width, p: seq<Byte>, i: nat)
    requires i < |Unpack(w, p)|
    ensures Unpack(w, p)[i] as int <= w.Levels()
  {
    FitsWidth(Unpack(w, p)[i], w);
    if w.Two? {
      Pairs(0, 0, 0, 0, p[i / 4]);
    } else {
      Nibbles(0, 0, p[i / 2]);
    }
  }

  lemma Repacked(w: Width, p: seq<Byte>, i: nat)
    requires i < |p|
    ensures Pack(w, Unpack(w, p))[i] == p[i]
  {
    if w.Two? { Repacked2(p, i); } else { Repacked4(p, i); }
  }

  lemma Repacked4(p: seq<Byte>, i: nat)
    requires i < |p|
    ensures Pack4(Unpack4(p))[i] == p[i]
  {
    var q := Unpack4(p);
    assert q[2 * i] == Code4(p[i], 0) && q[2 * i + 1] == Code4(p[i], 1);
    Nibbles(0, 0, p[i]);
  }

  lemma Repacked2(p: seq<Byte>, i: nat)
    requires i < |p|
    ensures Pack2(Unpack2(p))[i] == p[i]
  {
    var q := Unpack2(p);
    At2(p, i, 0);
    At2(p, i, 1);
    At2(p, i, 2);
    At2(p, i, 3);
    Pairs(0, 0, 0, 0, p[i]);
  }

  lemma At2(p: seq<Byte>, i: nat, j: nat)
    requires i < |p| && j < 4
    ensures Unpack2(p)[4 * i + j] == Code2(p[i], j)
  {
    assert (4 * i + j) / 4 == i && (4 * i + j) % 4 == j;
  }

  // ---- scalar quantizer ----

  const EPS: real := 0.00000001

  function Scale(lo: real, hi: real, w: Width): (s: real) {
    Max2(hi - lo, EPS) / w.Levels() as real
  }

  function Clamp(n: int, top: nat): (r: nat)
    ensures r <= top
    ensures 0 <= n <= top ==> r == n
  {
    if n < 0 then 0 else if n > top then top else n
  }

  function ByteOf(n: int, w: Width): (b: Byte)
    ensures b as int == Clamp(n, w.Levels())
  {
    Clamp(n, w.Levels()) as Byte
  }

  function CodeOf(x: real, lo: real, s: real, w: Width): (b: Byte)
    requires s > 0.0
    ensures b as int <= w.Levels()
  {
    ByteOf(Round((x - lo) / s), w)
  }

  /** A stored code read back: code * scale + zero. */
  function Read(b: Byte, s: real, lo: real): real {
    (b as int) as real * s + lo
  }

  /** What is read back is within a thirtieth of the spread of the stored data at four bits, and within a sixth of it
      at two; a spread below 1e-8 counts as that. */
  ghost predicate WithinSpread(w: Width, x: real, r: real, spread: real) {
    match w
    case Four => Gap(x, r) * 30.0 <= Max2(spread, 0.00000001)
    case Two => Gap(x, r) * 6.0 <= Max2(spread, 0.00000001)
  }

  function Gap(x: real, r: real): (d: real)
    ensures d >= 0.0 && (d == x - r || d == r - x)
  {
    if x < r then r - x else x - r
  }

  lemma HalfStepSpread(w: Width, x: real, r: real, lo: real, hi: real)
    requires var s := Scale(lo, hi, w); -(s * 0.5) <= x - r <= s * 0.5
    ensures WithinSpread(w, x, r, hi - lo)
  {
    var s, n := Scale(lo, hi, w), w.Levels() as real;
    assert s * n == Max2(hi - lo, EPS);
  }

  /** Clamping never moves a code of a value inside the group's range, and the value read back
      is within half a step of the one stored. */
  lemma {:induction false} HalfStep(x: real, lo: real, hi: real, w: Width)
    requires lo <= x <= hi
    ensures Scale(lo, hi, w) > 0.0
    ensures CodeOf(x, lo, Scale(lo, hi, w), w) as int == Round((x - lo) / Scale(lo, hi, w))
    ensures var s := Scale(lo, hi, w);
            && -(s * 0.5) <= x - Read(CodeOf(x, lo, s, w), s, lo) <= s * 0.5
            && WithinSpread(w, x, Read(CodeOf(x, lo, s, w), s, lo), hi - lo)
  {
    ScalePositive(lo, hi, w);
    var s := Scale(lo, hi, w);
    CodeHalfStep(x, lo, s, w);
    HalfStepSpread(w, x, Read(CodeOf(x, lo, s, w), s, lo), lo, hi);
  }

  /** The least and the greatest stored number are read back exactly, unless they nearly coincide: every level of the
      width is used. */
  lemma ExtremesExact(lo: real, hi: real, w: Width)
    requires hi - lo >= 0.00000001
    ensures var s := Scale(lo, hi, w);
            && s > 0.0 && Read(CodeOf(lo, lo, s, w), s, lo) == lo && Read(CodeOf(hi, lo, s, w), s, lo) == hi
            && CodeOf(lo, lo, s, w) == 0 && CodeOf(hi, lo, s, w) == if w.Two? then 3 else 15
  {
    ScalePositive(lo, hi, w);
    var s, n := Scale(lo, hi, w), w.Levels();
    assert s * n as real == hi - lo;
    assert (hi - lo) / s == n as real by { Cancelled(hi - lo, s, n as real); }
    assert (lo - lo) / s == 0.0;
  }

  lemma Cancelled(a: real, s: real, n: real)
    requires s > 0.0 && a == s * n
    ensures a / s == n
  {}

  lemma CodeHalfStep(x: real, lo: real, s: real, w: Width)
    requires s > 0.0 && 0.0 <= x - lo <= s * w.Levels() as real
    ensures CodeOf(x, lo, s, w) as int == Round((x - lo) / s)
    ensures -(s * 0.5) <= x - Read(CodeOf(x, lo, s, w), s, lo) <= s * 0.5
  {
    var y := CodeExact(x, lo, s, w);
    NearestStep(x, lo, s, y, Round(y) as real);
  }

  lemma CodeExact(x: real, lo: real, s: real, w: Width) returns (y: real)
    requires s > 0.0 && 0.0 <= x - lo <= s * w.Levels() as real
    ensures y == (x - lo) / s && y * s == x - lo
    ensures CodeOf(x, lo, s, w) as int == Round(y)
  {
    y := (x - lo) / s;
    assert y * s == x - lo;
    assert 0 <= Round(y) <= w.Levels() by {
      StepsWithin(x - lo, s, w.Levels());
      RoundWithin(y, w.Levels());
    }
  }

  lemma StepsWithin(r: real, s: real, n: nat)
    requires s > 0.0 && 0.0 <= r <= s * n as real
    ensures 0.0 <= r / s <= n as real
  {
    var y := r / s;
    assert y * s == r;
    if y < 0.0 { MulMono(y, 0.0, s); }
    if y > n as real { MulMono(n as real, y, s); }
  }

  lemma NearestStep(x: real, lo: real, s: real, y: real, k: real)
    requires s > 0.0 && y * s == x - lo && -0.5 <= y - k <= 0.5
    ensures -(s * 0.5) <= x - (k * s + lo) <= s * 0.5
  {
    WithinHalf(y, k, s);
    WithinHalf(k, y, s);
  }

  lemma WithinHalf(a: real, b: real, s: real)
    requires a <= b + 0.5 && s > 0.0
    ensures a * s <= b * s + s * 0.5
  {
    var d := b + 0.5 - a;
    assert d * s >= 0.0;
    assert d * s == b * s + 0.5 * s - a * s;
  }

  lemma MulMono(a: real, b: real, c: real)
    requires a <= b && c >= 0.0
    ensures a * c <= b * c
    ensures a < b && c > 0.0 ==> a * c < b * c
  {}

  // ---- key groups (per channel) and value tokens (per token) ----

  /** One appended unit of the key store: a group of G tokens quantized per channel, or one
      sixteen-bit key. */
  datatype KUnit = Group(rows: seq<seq<Byte>>, scale: Vec, zero: Vec) | Half(key: Vec)

  /** One unit of the value store: a token quantized on its own, or one sixteen-bit value. */
  datatype VUnit = Token(row: seq<Byte>, vscale: real, vzero: real) | Plain(val: Vec)

  function CodesOf(row: Vec, zero: Vec, scale: Vec, w: Width): (q: seq<Byte>)
    requires |row| == |zero| == |scale| && forall d :: 0 <= d < |scale| ==> scale[d] > 0.0
    ensures |q| == |row| && InRange(w, q)
    ensures forall d :: 0 <= d < |row| ==> q[d] == CodeOf(row[d], zero[d], scale[d], w)
  {
    seq(|row|, d requires 0 <= d < |row| => CodeOf(row[d], zero[d], scale[d], w))
  }

  lemma ScalePositive(lo: real, hi: real, w: Width)
    ensures Scale(lo, hi, w) > 0.0 && hi - lo <= Scale(lo, hi, w) * w.Levels() as real
  {
    var s, n := Scale(lo, hi, w), w.Levels() as real;
    assert s * n == Max2(hi - lo, EPS);
    if s <= 0.0 { MulMono(s, 0.0, n); }
  }

  function KeyZero(ks: seq<Vec>, dim: nat): (z: Vec)
    requires |ks| > 0 && Shaped(ks, dim)
    ensures |z| == dim && forall d :: 0 <= d < dim ==> z[d] == Min(Column(ks, d))
  {
    seq(dim, d requires 0 <= d < dim => Min(Column(ks, d)))
  }

  function KeyScale(ks: seq<Vec>, dim: nat, w: Width): (s: Vec)
    requires |ks| > 0 && Shaped(ks, dim)
    ensures |s| == dim && forall d :: 0 <= d < dim ==> s[d] > 0.0
    ensures forall d :: 0 <= d < dim ==> s[d] == Scale(Min(Column(ks, d)), Max(Column(ks, d)), w)
  {
    var s := seq(dim, d requires 0 <= d < dim => Scale(Min(Column(ks, d)), Max(Column(ks, d)), w));
    assert forall d :: 0 <= d < dim ==> s[d] > 0.0 by {
      forall d | 0 <= d < dim ensures s[d] > 0.0 {
        ScalePositive(Min(Column(ks, d)), Max(Column(ks, d)), w);
      }
    }
    s
  }

  function QuantKeyGroup(w: Width, ks: seq<Vec>, dim: nat): (u: KUnit)
    requires |ks| > 0 && Shaped(ks, dim) && dim % w.PerByte() == 0
  {
    var z, s := KeyZero(ks, dim), KeyScale(ks, dim, w);
    Group(seq(|ks|, t requires 0 <= t < |ks| => Pack(w, CodesOf(ks[t], z, s, w))), s, z)
  }

  function QuantValue(w: Width, v: Vec): (u: VUnit)
    requires |v| > 0 && |v| % w.PerByte() == 0
  {
    ScalePositive(Min(v), Max(v), w);
    var s := Scale(Min(v), Max(v), w);
    Token(Pack(w, ValueCodes(w, v, Min(v), s)), s, Min(v))
  }

  function ValueCodes(w: Width, v: Vec, lo: real, s: real): (q: seq<Byte>)
    requires s > 0.0
    ensures |q| == |v| && InRange(w, q) && forall d :: 0 <= d < |v| ==> q[d] == CodeOf(v[d], lo, s, w)
  {
    seq(|v|, d requires 0 <= d < |v| => CodeOf(v[d], lo, s, w))
  }

  /** A row of packed codes dequantized; positions beyond the scale vector read a zero scale. */
  function ReadRow(w: Width, row: seq<Byte>, scale: Vec, zero: Vec): (r: Vec)
    ensures |r| == w.PerByte() * |row|
  {
    var q := Unpack(w, row);
    seq(|q|, d requires 0 <= d < |q| => if d < |scale| && d < |zero| then Read(q[d], scale[d], zero[d]) else 0.0)
  }

  function ReadKeys(w: Width, u: KUnit): (ks: seq<Vec>) {
    match u
    case Group(rows, s, z) => seq(|rows|, t requires 0 <= t < |rows| => ReadRow(w, rows[t], s, z))
    case Half(k) => [k]
  }

  function ReadValue(w: Width, u: VUnit): (v: Vec) {
    match u
    case Token(row, s, z) =>
      var q := Unpack(w, row);
      seq(|q|, d requires 0 <= d < |q| => Read(q[d], s, z))
    case Plain(v) => v
  }

  /** Every entry of a restored key group is within half its channel's step of the original. */
  lemma {:induction false} KeyGroupHalfStep(w: Width, ks: seq<Vec>, dim: nat, t: nat, d: nat)
    requires |ks| > 0 && Shaped(ks, dim) && dim % w.PerByte() == 0 && t < |ks| && d < dim
    ensures var u := QuantKeyGroup(w, ks, dim);
            var r := ReadKeys(w, u);
            && |r| == |ks| && |r[t]| == dim
            && -(u.scale[d] * 0.5) <= ks[t][d] - r[t][d] <= u.scale[d] * 0.5
            && WithinSpread(w, ks[t][d], r[t][d], Max(Column(ks, d)) - Min(Column(ks, d)))
  {
    var r := ReadKeys(w, QuantKeyGroup(w, ks, dim));
    ReadBackKey(w, ks, dim, t, d);
    NearInColumn(Column(ks, d), t, w, KeyScale(ks, dim, w)[d], r[t][d]);
  }

  /** An entry of a channel read back with the channel's zero and step. */
  lemma NearInColumn(c: Vec, t: nat, w: Width, s: real, r: real)
    requires t < |c| && s == Scale(Min(c), Max(c), w) > 0.0 && r == Read(CodeOf(c[t], Min(c), s, w), s, Min(c))
    ensures -(s * 0.5) <= c[t] - r <= s * 0.5 && WithinSpread(w, c[t], r, Max(c) - Min(c))
  {
    HalfStep(c[t], Min(c), Max(c), w);
  }

  lemma ReadBackKey(w: Width, ks: seq<Vec>, dim: nat, t: nat, d: nat)
    requires |ks| > 0 && Shaped(ks, dim) && dim % w.PerByte() == 0 && t < |ks| && d < dim
    ensures var z, s, r := KeyZero(ks, dim)[d], KeyScale(ks, dim, w)[d], ReadKeys(w, QuantKeyGroup(w, ks, dim));
            && |r| == |ks| && |r[t]| == dim
            && s > 0.0 && r[t][d] == Read(CodeOf(ks[t][d], z, s, w), s, z)
  {
    UnpackPack(w, CodesOf(ks[t], KeyZero(ks, dim), KeyScale(ks, dim, w), w));
  }

  /** Every entry of a restored value is within half the token's step of the original. */
  lemma {:induction false} ValueHalfStep(w: Width, v: Vec, d: nat)
    requires |v| > 0 && |v| % w.PerByte() == 0 && d < |v|
    ensures var u := QuantValue(w, v);
            var r := ReadValue(w, u);
            && |r| == |v| && -(u.vscale * 0.5) <= v[d] - r[d] <= u.vscale * 0.5
            && WithinSpread(w, v[d], r[d], Max(v) - Min(v))
  {
    var lo, hi := Min(v), Max(v);
    ScalePositive(lo, hi, w);
    ReadBackValue(w, v, d);
    HalfStep(v[d], lo, hi, w);
  }

  lemma ReadBackValue(w: Width, v: Vec, d: nat)
    requires |v| > 0 && |v| % w.PerByte() == 0 && d < |v|
    ensures var s, r := Scale(Min(v), Max(v), w), ReadValue(w, QuantValue(w, v));
            |r| == |v| && s > 0.0 && r[d] == Read(CodeOf(v[d], Min(v), s, w), s, Min(v))
  {
    ScalePositive(Min(v), Max(v), w);
    UnpackPack(w, ValueCodes(w, v, Min(v), Scale(Min(v), Max(v), w)));
  }

  /** Every entry of a restored value is within its share of the token's spread. */
  ghost predicate RowBack(w: Width, v: Vec, r: Vec) {
    |v| == |r| && forall d :: 0 <= d < |v| ==> WithinSpread(w, v[d], r[d], Max(v) - Min(v))
  }

  lemma ValueRowBack(w: Width, v: Vec)
    requires |v| > 0 && |v| % w.PerByte() == 0
    ensures RowBack(w, v, ReadValue(w, QuantValue(w, v)))
  {
    ValueHalfStep(w, v, 0);
    var r := ReadValue(w, QuantValue(w, v));
    forall d | 0 <= d < |v| ensures WithinSpread(w, v[d], r[d], Max(v) - Min(v)) { ValueHalfStep(w, v, d); }
  }
}
