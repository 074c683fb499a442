/** How far the history a cache layer reads back is from the tokens that were fed. */
module KiviReadback {
  import opened Nums
  import opened Seqs
  import opened KiviCodes
  import opened KiviCache

  /** The group of `G` tokens that token `i` is quantized in. */
  function GroupOf(c: Config, ks: seq<Vec>, i: nat): (g: seq<Vec>)
    requires c.Ok() && Shaped(ks, c.dk) && i < |ks|
    ensures 0 < |g| && Shaped(g, c.dk)
    decreases |ks|
  {
    if i < c.group then (if |ks| < c.group then ks else ks[..c.group])
    else GroupOf(c, ks[c.group..], i - c.group)
  }

  lemma SliceShift<T>(s: seq<T>, g: nat, a: nat, b: nat)
    requires a <= b && g + b <= |s|
    ensures s[g..][a..b] == s[g + a..g + b]
  {}

  lemma {:induction false} GroupAt(c: Config, ks: seq<Vec>, start: nat, t: nat)
    requires c.Ok() && Shaped(ks, c.dk) && start % c.group == 0 && t < c.group && start + c.group <= |ks|
    ensures GroupOf(c, ks, start + t) == ks[start..start + c.group]
    decreases start
  {
    if start > 0 {
      DivLower(start, c.group);
      GroupAt(c, ks[c.group..], start - c.group, t);
      assert GroupOf(c, ks, start + t) == GroupOf(c, ks[c.group..], start + t - c.group);
      SliceShift(ks, c.group, start - c.group, start);
    }
  }

  /** Key groups lie on absolute multiples of `G`, whatever calls delivered the tokens. */
  lemma GroupsAreAbsolute(c: Config, ks: seq<Vec>, i: nat)
    requires c.Ok() && Shaped(ks, c.dk) && i < |ks| && |ks| % c.group == 0
    ensures var start := i - i % c.group;
            && start % c.group == 0 && start + c.group <= |ks|
            && GroupOf(c, ks, i) == ks[start..start + c.group]
  {
    AlignedStart(i, |ks|, c.group);
    GroupAt(c, ks, i - i % c.group, i % c.group);
  }

  lemma EncodeCons(c: Config, ks: seq<Vec>)
    requires c.Ok() && c.bits.Low? && Shaped(ks, c.dk) && |ks| >= c.group
    ensures EncodeKeys(c, ks) == [QuantKeyGroup(c.bits.width, ks[..c.group], c.dk)] + EncodeKeys(c, ks[c.group..])
  {}

  lemma EncodeNone(c: Config, ks: seq<Vec>)
    requires c.Ok() && Shaped(ks, c.dk) && |ks| < c.group
    ensures EncodeKeys(c, ks) == []
  {}

  ghost predicate UnitIs(c: Config, ks: seq<Vec>, u: seq<KUnit>, b: nat, start: nat)
    requires c.Ok() && c.bits.Low? && Shaped(ks, c.dk)
  {
    && (b < |u| <==> start + c.group <= |ks|)
    && (b < |u| ==> u[b] == QuantKeyGroup(c.bits.width, ks[start..start + c.group], c.dk))
  }

  lemma UnitOfRest(c: Config, ks: seq<Vec>, first: KUnit, u: seq<KUnit>, b: nat, start: nat)
    requires c.Ok() && c.bits.Low? && Shaped(ks, c.dk) && b > 0 && c.group <= start && c.group <= |ks|
    requires UnitIs(c, ks[c.group..], u, b - 1, start - c.group)
    ensures UnitIs(c, ks, [first] + u, b, start)
  {
    if start + c.group <= |ks| { SliceShift(ks, c.group, start - c.group, start); }
  }

  lemma {:induction false} EncodedUnit(c: Config, ks: seq<Vec>, b: nat, start: nat)
    requires c.Ok() && c.bits.Low? && Shaped(ks, c.dk) && start == b * c.group
    ensures UnitIs(c, ks, EncodeKeys(c, ks), b, start)
    decreases b
  {
    if |ks| < c.group {
      EncodeNone(c, ks);
    } else {
      EncodeCons(c, ks);
      if b > 0 {
        PreviousMultiple(b, c.group);
        EncodedUnit(c, ks[c.group..], b - 1, start - c.group);
        UnitOfRest(c, ks, QuantKeyGroup(c.bits.width, ks[..c.group], c.dk), EncodeKeys(c, ks[c.group..]), b, start);
      } else {
        assert start == 0;
      }
    }
  }

  lemma PreviousMultiple(b: nat, g: nat)
    requires b > 0
    ensures b * g - g == (b - 1) * g >= 0
  {
    MulMonoInt(0, b - 1, g);
  }

  lemma TakeSlice<T>(s: seq<T>, q: nat, a: nat, b: nat)
    requires a <= b <= q <= |s|
    ensures s[..q][a..b] == s[a..b]
  {}

  /** What is stored, whatever calls delivered the tokens: unit `b` of the key history is the quantized group of
      the `G` tokens from `b * G` on, and there is one exactly when those tokens have left the window. */
  lemma StoredGroups(c: Config, run: seq<Call>, b: nat, start: nat)
    requires CallsFit(c, run) && c.bits.Low? && start == b * c.group
    ensures ChunkFits(c, AllKeys(run), AllValues(run))
    ensures var u, ks := Flat(EagerRun(c, run).k), AllKeys(run);
            && (b < |u| <==> start + c.group <= Stored(c, |ks|))
            && (b < |u| ==>
                  start + c.group <= |ks| && u[b] == QuantKeyGroup(c.bits.width, ks[start..start + c.group], c.dk))
  {
    EagerCanonical(c, run);
    var ks := AllKeys(run);
    var q := Stored(c, |ks|);
    EncodedUnit(c, ks[..q], b, start);
    UnitOfPrefix(c, ks, q, Flat(EagerRun(c, run).k), b, start);
  }

  lemma UnitOfPrefix(c: Config, ks: seq<Vec>, q: nat, u: seq<KUnit>, b: nat, start: nat)
    requires c.Ok() && c.bits.Low? && Shaped(ks, c.dk) && q <= |ks| && UnitIs(c, ks[..q], u, b, start)
    ensures b < |u| <==> start + c.group <= q
    ensures b < |u| ==> u[b] == QuantKeyGroup(c.bits.width, ks[start..start + c.group], c.dk)
  {
    assert |ks[..q]| == q;
    if start + c.group <= q {
      var g := ks[..q][start..start + c.group];
      assert u[b] == QuantKeyGroup(c.bits.width, g, c.dk);
      assert g == ks[start..start + c.group] by { TakeSlice(ks, q, start, start + c.group); }
    }
  }

  lemma AlignedStart(i: nat, n: nat, g: nat)
    requires g > 0 && i < n && n % g == 0
    ensures var start := i - i % g; 0 <= start && start % g == 0 && start + g <= n
  {
    var start := i - i % g;
    assert start == i / g * g;
    ModMultiple(i / g, g);
    if start + g > n {
      MultiplesApart(start, n, g);
    }
  }

  function FirstBlock(c: Config, g: seq<Vec>): (r: seq<Vec>)
    requires c.Ok() && |g| == c.group && Shaped(g, c.dk)
    ensures |r| == |g|
  {
    if c.bits.Low? then ReadKeys(c.bits.width, QuantKeyGroup(c.bits.width, g, c.dk)) else g
  }

  lemma FirstBlockShaped(c: Config, g: seq<Vec>)
    requires c.Ok() && |g| == c.group && Shaped(g, c.dk)
    ensures Shaped(FirstBlock(c, g), c.dk)
  {
    if c.bits.Low? {
      forall t | 0 <= t < c.group ensures |FirstBlock(c, g)[t]| == c.dk {
        KeyGroupHalfStep(c.bits.width, g, c.dk, t, 0);
      }
    }
  }

  lemma RestoreGroup(c: Config, g: seq<Vec>)
    requires c.Ok() && |g| == c.group && Shaped(g, c.dk)
    ensures RestoreKeys(c.bits, EncodeGroup(c, g)) == FirstBlock(c, g)
  {
    if c.bits.Low? {
      var block := ReadKeys(c.bits.width, QuantKeyGroup(c.bits.width, g, c.dk));
      FlatSnoc([], block);
      assert KeyBlocks(c.bits, EncodeGroup(c, g)) == [] + [block];
    } else {
      RestoreHalves(c.bits, g);
    }
  }

  lemma {:induction false} RestoreHalves(b: Bits, g: seq<Vec>)
    ensures RestoreKeys(b, Halves(g)) == g
  {
    if g != [] {
      RestoreHalves(b, g[1..]);
      assert KeyBlocks(b, Halves(g))[1..] == KeyBlocks(b, Halves(g[1..]));
      assert KeyBlocks(b, Halves(g))[0] == [g[0]];
    }
  }

  lemma RestoreFirst(c: Config, ks: seq<Vec>)
    requires c.Ok() && Shaped(ks, c.dk) && |ks| >= c.group
    ensures RestoreKeys(c.bits, EncodeKeys(c, ks))
         == FirstBlock(c, ks[..c.group]) + RestoreKeys(c.bits, EncodeKeys(c, ks[c.group..]))
  {
    RestoreGroup(c, ks[..c.group]);
    RestoreKeysAppend(c.bits, EncodeGroup(c, ks[..c.group]), EncodeKeys(c, ks[c.group..]));
  }

  lemma {:induction false} RestoredKeys(c: Config, ks: seq<Vec>)
    requires c.Ok() && Shaped(ks, c.dk) && |ks| % c.group == 0
    ensures var r := RestoreKeys(c.bits, EncodeKeys(c, ks));
            |r| == |ks| && Shaped(r, c.dk) && (c.bits.Sixteen? ==> r == ks)
    decreases |ks|
  {
    if ks != [] {
      DivLower(|ks|, c.group);
      var g, rest := ks[..c.group], ks[c.group..];
      RestoredKeys(c, rest);
      FirstBlockShaped(c, g);
      JoinShaped(FirstBlock(c, g), RestoreKeys(c.bits, EncodeKeys(c, rest)), ks, c.group, c.dk);
      assert RestoreKeys(c.bits, EncodeKeys(c, ks)) == FirstBlock(c, g) + RestoreKeys(c.bits, EncodeKeys(c, rest))
        by { RestoreFirst(c, ks); }
    }
  }

  lemma JoinShaped(a: seq<Vec>, b: seq<Vec>, ks: seq<Vec>, g: nat, dim: nat)
    requires g <= |ks| && |a| == g && |b| == |ks| - g && Shaped(a, dim) && Shaped(b, dim)
    ensures |a + b| == |ks| && Shaped(a + b, dim)
    ensures a == ks[..g] && b == ks[g..] ==> a + b == ks
  {}

  /** Every restored key entry is within half a step of the original, the step being that of the entry's channel in
      the token's own group; in terms of the data, within a thirtieth or a sixth of that channel's spread there. */
  ghost predicate KeyNear(c: Config, ks: seq<Vec>, r: seq<Vec>, i: nat, d: nat)
    requires c.Ok() && c.bits.Low? && Shaped(ks, c.dk) && i < |ks| && d < c.dk
    requires i < |r| && Shaped(r, c.dk)
  {
    EntryBack(c, GroupOf(c, ks, i), d, ks[i][d], r[i][d])
  }

  ghost predicate EntryBack(c: Config, g: seq<Vec>, d: nat, x: real, r: real)
    requires c.Ok() && c.bits.Low? && 0 < |g| && Shaped(g, c.dk) && d < c.dk
  {
    var step := KeyScale(g, c.dk, c.bits.width)[d];
    && -(step * 0.5) <= x - r <= step * 0.5
    && WithinSpread(c.bits.width, x, r, Max(Column(g, d)) - Min(Column(g, d)))
  }

  lemma GroupEntryBack(c: Config, g: seq<Vec>, i: nat, d: nat)
    requires c.Ok() && c.bits.Low? && |g| == c.group && Shaped(g, c.dk) && i < c.group && d < c.dk
    ensures Shaped(FirstBlock(c, g), c.dk) && EntryBack(c, g, d, g[i][d], FirstBlock(c, g)[i][d])
  {
    FirstBlockShaped(c, g);
    KeyGroupHalfStep(c.bits.width, g, c.dk, i, d);
  }

  lemma {:induction false} StoredKeyError(c: Config, ks: seq<Vec>, i: nat, d: nat)
    requires c.Ok() && c.bits.Low? && Shaped(ks, c.dk) && |ks| % c.group == 0 && i < |ks| && d < c.dk
    ensures var r := RestoreKeys(c.bits, EncodeKeys(c, ks));
            |r| == |ks| && Shaped(r, c.dk) && KeyNear(c, ks, r, i, d)
    decreases |ks|
  {
    DivLower(|ks|, c.group);
    var first, rest := FirstBlock(c, ks[..c.group]), ks[c.group..];
    FirstBlockShaped(c, ks[..c.group]);
    RestoredKeys(c, rest);
    var r := RestoreKeys(c.bits, EncodeKeys(c, rest));
    if i < c.group {
      NearInFirst(c, ks, r, i, d);
    } else {
      assert KeyNear(c, rest, r, i - c.group, d) by { StoredKeyError(c, rest, i - c.group, d); }
      NearBeyondFirst(c, ks, first, r, i, d);
    }
    assert RestoreKeys(c.bits, EncodeKeys(c, ks)) == first + r by { RestoreFirst(c, ks); }
  }

  lemma NearInFirst(c: Config, ks: seq<Vec>, r: seq<Vec>, i: nat, d: nat)
    requires c.Ok() && c.bits.Low? && Shaped(ks, c.dk) && i < c.group <= |ks| && d < c.dk
    requires Shaped(r, c.dk)
    ensures Shaped(FirstBlock(c, ks[..c.group]) + r, c.dk) && KeyNear(c, ks, FirstBlock(c, ks[..c.group]) + r, i, d)
  {
    var g := ks[..c.group];
    GroupEntryBack(c, g, i, d);
    assert GroupOf(c, ks, i) == g;
    assert (FirstBlock(c, g) + r)[i] == FirstBlock(c, g)[i] && ks[i] == g[i];
  }

  lemma NearBeyondFirst(c: Config, ks: seq<Vec>, first: seq<Vec>, r: seq<Vec>, i: nat, d: nat)
    requires c.Ok() && c.bits.Low? && Shaped(ks, c.dk) && c.group <= i < |ks| && d < c.dk
    requires |first| == c.group && Shaped(first, c.dk) && |r| == |ks| - c.group && Shaped(r, c.dk)
    requires KeyNear(c, ks[c.group..], r, i - c.group, d)
    ensures Shaped(first + r, c.dk) && KeyNear(c, ks, first + r, i, d)
  {
  }

  /** The multiple of `g` at or before `i`. */
  function GroupStart(i: nat, g: nat): (start: nat)
    requires g > 0
    ensures start % g == 0 && start <= i < start + g
  {
    assert i == i / g * g + i % g;
    ModMultiple(i / g, g);
    i - i % g
  }

  /** Token `i` of the tokens a store holds as restored: exactly the token while it is in the window; once stored, every
      key entry within a thirtieth (at two bits a sixth) of the spread of its channel over the group of `G` tokens at
      the absolute multiple of `G` before it, and every value entry within the same share of its token's spread. */
  ghost predicate ReadsBack(c: Config, s: Store, ks: seq<Vec>, vs: seq<Vec>, q: nat, i: nat)
    requires c.Ok() && c.bits.Low? && ChunkFits(c, ks, vs) && q % c.group == 0 && q <= |ks| && i < |ks|
  {
    var rks, rvs := RestoreKeys(c.bits, Flat(s.k)) + s.rk, RestoreValues(c.bits, Flat(s.v)) + s.rv;
    var start := GroupStart(i, c.group);
    && |rks| == |rvs| == |ks| == s.n
    && (i >= q ==> rks[i] == ks[i] && rvs[i] == vs[i])
    && (i < q ==>
          && |rks[i]| == c.dk && start + c.group <= q
          && KeyRowBack(c.bits.width, ks[i], rks[i], ks[start..start + c.group])
          && RowBack(c.bits.width, vs[i], rvs[i]))
  }

  ghost predicate KeyRowBack(w: Width, k: Vec, r: Vec, g: seq<Vec>)
    requires |k| == |r| && g != [] && Shaped(g, |k|)
  {
    forall d :: 0 <= d < |k| ==> WithinSpread(w, k[d], r[d], Max(Column(g, d)) - Min(Column(g, d)))
  }

  lemma HoldsReadsBack(c: Config, s: Store, ks: seq<Vec>, vs: seq<Vec>, q: nat, i: nat)
    requires c.Ok() && c.bits.Low? && Holds(c, s, ks, vs, q) && i < |ks|
    ensures ReadsBack(c, s, ks, vs, q, i)
  {
    var rk, rv := RestoreKeys(c.bits, EncodeKeys(c, ks[..q])), RestoreValues(c.bits, EncodeValues(c, vs[..q]));
    RestoredKeys(c, ks[..q]);
    TailKept(ks, rk, q);
    TailKept(vs, rv, q);
    if i < q {
      StoredRowBack(c, ks, q, i);
      StoredValueBack(c, vs[..q], i);
    }
  }

  lemma StoredRowBack(c: Config, ks: seq<Vec>, q: nat, i: nat)
    requires c.Ok() && c.bits.Low? && Shaped(ks, c.dk) && i < q <= |ks| && q % c.group == 0
    ensures var r, start := RestoreKeys(c.bits, EncodeKeys(c, ks[..q])), GroupStart(i, c.group);
            && |r| == q && |r[i]| == c.dk && start + c.group <= q
            && KeyRowBack(c.bits.width, ks[i], r[i], ks[start..start + c.group])
  {
    AbsoluteGroup(c, ks, q, i);
    EveryEntryNear(c, ks[..q], i);
    RowOfEntries(c, ks[..q], RestoreKeys(c.bits, EncodeKeys(c, ks[..q])), i);
  }

  lemma AbsoluteGroup(c: Config, ks: seq<Vec>, q: nat, i: nat)
    requires c.Ok() && Shaped(ks, c.dk) && i < q <= |ks| && q % c.group == 0
    ensures var start := GroupStart(i, c.group);
            start + c.group <= q && GroupOf(c, ks[..q], i) == ks[start..start + c.group]
  {
    GroupsAreAbsolute(c, ks[..q], i);
    var start := GroupStart(i, c.group);
    TakeSlice(ks, q, start, start + c.group);
  }

  lemma EveryEntryNear(c: Config, ks: seq<Vec>, i: nat)
    requires c.Ok() && c.bits.Low? && Shaped(ks, c.dk) && |ks| % c.group == 0 && i < |ks|
    ensures var r := RestoreKeys(c.bits, EncodeKeys(c, ks));
            |r| == |ks| && Shaped(r, c.dk) && forall d :: 0 <= d < c.dk ==> KeyNear(c, ks, r, i, d)
  {
    StoredKeyError(c, ks, i, 0);
    forall d | 0 <= d < c.dk ensures KeyNear(c, ks, RestoreKeys(c.bits, EncodeKeys(c, ks)), i, d) {
      StoredKeyError(c, ks, i, d);
    }
  }

  lemma RowOfEntries(c: Config, ks: seq<Vec>, r: seq<Vec>, i: nat)
    requires c.Ok() && c.bits.Low? && Shaped(ks, c.dk) && i < |ks| == |r| && Shaped(r, c.dk)
    requires forall d :: 0 <= d < c.dk ==> KeyNear(c, ks, r, i, d)
    ensures KeyRowBack(c.bits.width, ks[i], r[i], GroupOf(c, ks, i))
  {
    var g := GroupOf(c, ks, i);
    forall d | 0 <= d < c.dk
      ensures WithinSpread(c.bits.width, ks[i][d], r[i][d], Max(Column(g, d)) - Min(Column(g, d)))
    {
      assert KeyNear(c, ks, r, i, d);
    }
  }

  lemma StoredValueBack(c: Config, vs: seq<Vec>, i: nat)
    requires c.Ok() && c.bits.Low? && Shaped(vs, c.dv) && i < |vs|
    ensures RowBack(c.bits.width, vs[i], RestoreValues(c.bits, EncodeValues(c, vs))[i])
  {
    ValueRowBack(c.bits.width, vs[i]);
  }

  /** After any run, every token the eager layer holds reads back so. */
  lemma EagerReadback(c: Config, run: seq<Call>, i: nat)
    requires CallsFit(c, run) && c.bits.Low? && i < |AllKeys(run)|
    ensures ChunkFits(c, AllKeys(run), AllValues(run))
    ensures ReadsBack(c, EagerRun(c, run), AllKeys(run), AllValues(run), Stored(c, |AllKeys(run)|), i)
  {
    EagerCanonical(c, run);
    HoldsReadsBack(c, EagerRun(c, run), AllKeys(run), AllValues(run), Stored(c, |AllKeys(run)|), i);
  }

  /** And every token of the tiled layer, of which one call fewer is stored. */
  lemma LazyReadback(c: Config, run: seq<Call>, i: nat)
    requires CallsFit(c, run) && c.bits.Low? && i < |AllKeys(run)|
    ensures ChunkFits(c, AllKeys(run), AllValues(run)) && run != []
    ensures ReadsBack(c, LazyRun(c, run), AllKeys(run), AllValues(run), Stored(c, |AllKeys(run[..|run| - 1])|), i)
  {
    LazyCanonical(c, run);
    HoldsReadsBack(c, LazyRun(c, run), AllKeys(run), AllValues(run), Stored(c, |AllKeys(run[..|run| - 1])|), i);
  }

  /** A list whose first `q` members are replaced keeps the others. */
  lemma TailKept<T>(s: seq<T>, r: seq<T>, q: nat)
    requires |r| == q <= |s|
    ensures |r + s[q..]| == |s| && (r + s[q..])[..q] == r
    ensures forall i :: 0 <= i < q ==> (r + s[q..])[i] == r[i]
    ensures forall i :: q <= i < |s| ==> (r + s[q..])[i] == s[i]
  {}
}
