/** The one-row longest-common-subsequence program and its specification. */
module Lcs {

  /** Length of a longest common subsequence of the first `i` of `x` and the first `j` of `y`. */
  function Table<T(==)>(x: seq<T>, y: seq<T>, i: nat, j: nat): nat
    requires i <= |x| && j <= |y|
  {
    if i == 0 || j == 0 then 0
    else if x[i - 1] == y[j - 1] then Table(x, y, i - 1, j - 1) + 1
    else
      var a, b := Table(x, y, i - 1, j), Table(x, y, i, j - 1);
      if a < b then b else a
  }

  /** `z` is found in the first `n` of `x` at the increasing places `f`. */
  ghost predicate Embeds<T>(z: seq<T>, x: seq<T>, n: nat, f: seq<nat>) {
    && n <= |x| && |f| == |z|
    && (forall k :: 0 <= k < |f| ==> f[k] < n && x[f[k]] == z[k])
    && forall k, l :: 0 <= k < l < |f| ==> f[k] < f[l]
  }

  /** `n` is the greatest length of a common subsequence of `x` and `y`: one of that length exists and
      none is longer. */
  ghost predicate LongestCommon<T(!new)>(x: seq<T>, y: seq<T>, n: nat) {
    && (exists z, f, g :: |z| == n && Embeds(z, x, |x|, f) && Embeds(z, y, |y|, g))
    && forall z, f, g :: Embeds(z, x, |x|, f) && Embeds(z, y, |y|, g) ==> |z| <= n
  }

  lemma {:induction false} Witness<T>(x: seq<T>, y: seq<T>, i: nat, j: nat)
    returns (z: seq<T>, f: seq<nat>, g: seq<nat>)
    requires i <= |x| && j <= |y|
    ensures |z| == Table(x, y, i, j) && Embeds(z, x, i, f) && Embeds(z, y, j, g)
  {
    if i == 0 || j == 0 {
      z, f, g := [], [], [];
    } else if x[i - 1] == y[j - 1] {
      z, f, g := Witness(x, y, i - 1, j - 1);
      z, f, g := z + [x[i - 1]], f + [i - 1], g + [j - 1];
    } else if Table(x, y, i - 1, j) < Table(x, y, i, j - 1) {
      z, f, g := Witness(x, y, i, j - 1);
    } else {
      z, f, g := Witness(x, y, i - 1, j);
    }
  }

  /** Dropping the last element of an embedded sequence embeds it below its last place. */
  lemma DropLast<T>(z: seq<T>, x: seq<T>, n: nat, f: seq<nat>, m: nat)
    requires Embeds(z, x, n, f) && z != [] && f[|f| - 1] <= m <= |x|
    ensures Embeds(z[..|z| - 1], x, m, f[..|f| - 1])
  {}

  lemma {:induction false} NoneLonger<T>(x: seq<T>, y: seq<T>, i: nat, j: nat, z: seq<T>, f: seq<nat>, g: seq<nat>)
    requires i <= |x| && j <= |y| && Embeds(z, x, i, f) && Embeds(z, y, j, g)
    ensures |z| <= Table(x, y, i, j)
  {
    if z != [] {
      var p := |z| - 1;
      if x[i - 1] == y[j - 1] {
        DropLast(z, x, i, f, i - 1);
        DropLast(z, y, j, g, j - 1);
        NoneLonger(x, y, i - 1, j - 1, z[..p], f[..p], g[..p]);
      } else if f[p] < i - 1 {
        assert Embeds(z, x, i - 1, f);
        NoneLonger(x, y, i - 1, j, z, f, g);
      } else {
        assert g[p] != j - 1;
        assert Embeds(z, y, j - 1, g);
        NoneLonger(x, y, i, j - 1, z, f, g);
      }
    }
  }

  lemma TableIsLongest<T(!new)>(x: seq<T>, y: seq<T>)
    ensures LongestCommon(x, y, Table(x, y, |x|, |y|))
  {
    var z, f, g := Witness(x, y, |x|, |y|);
    forall z', f', g' | Embeds(z', x, |x|, f') && Embeds(z', y, |y|, g') ensures |z'| <= Table(x, y, |x|, |y|) {
      NoneLonger(x, y, |x|, |y|, z', f', g');
    }
  }

  /** The table's row `i`. */
  ghost function Row<T>(x: seq<T>, y: seq<T>, i: nat): (r: seq<nat>)
    requires i <= |x|
    ensures |r| == |y| + 1 && forall j :: 0 <= j <= |y| ==> r[j] == Table(x, y, i, j)
  {
    seq(|y| + 1, j requires 0 <= j <= |y| => Table(x, y, i, j))
  }

  /** The program: one row at a time. */
  method LcsLength<T(==, !new)>(x: seq<T>, y: seq<T>) returns (n: nat)
    ensures LongestCommon(x, y, n) && n == Table(x, y, |x|, |y|)
  {
    var prev := new nat[|y| + 1](_ => 0);
    for i := 1 to |x| + 1
      invariant prev[..] == Row(x, y, i - 1)
    {
      var curr := new nat[|y| + 1](_ => 0);
      for j := 1 to |y| + 1
        invariant curr[..j] == Row(x, y, i)[..j] && prev[..] == Row(x, y, i - 1)
      {
        assert curr[..j][j - 1] == Table(x, y, i, j - 1);
        assert prev[..][j - 1] == Table(x, y, i - 1, j - 1) && prev[..][j] == Table(x, y, i - 1, j);
        if x[i - 1] == y[j - 1] {
          curr[j] := prev[j - 1] + 1;
        } else {
          curr[j] := if prev[j] < curr[j - 1] then curr[j - 1] else prev[j];
        }
      }
      assert curr[..] == curr[..|y| + 1];
      prev := curr;
    }
    TableIsLongest(x, y);
    n := prev[..][|y|];
  }

  /** The greatest length is unique, so it does not depend on the order of the arguments. */
  lemma Symmetric<T(!new)>(x: seq<T>, y: seq<T>)
    ensures Table(x, y, |x|, |y|) == Table(y, x, |y|, |x|)
  {
    var z, f, g := Witness(x, y, |x|, |y|);
    NoneLonger(y, x, |y|, |x|, z, g, f);
    var z', f', g' := Witness(y, x, |y|, |x|);
    NoneLonger(x, y, |x|, |y|, z', g', f');
  }

  /** An embedded sequence is contained in the multiset of what it is embedded in. */
  lemma {:induction false} EmbeddedMultiset<T>(z: seq<T>, x: seq<T>, n: nat, f: seq<nat>)
    requires Embeds(z, x, n, f)
    ensures multiset(z) <= multiset(x[..n])
    decreases n
  {
    if z != [] {
      if f[|f| - 1] < n - 1 {
        EmbeddedMultiset(z, x, n - 1, f);
      } else {
        DropLast(z, x, n, f, n - 1);
        EmbeddedMultiset(z[..|z| - 1], x, n - 1, f[..|f| - 1]);
        MultisetSnoc(z, |z|);
      }
      MultisetSnoc(x, n);
    }
  }

  lemma MultisetSnoc<T>(s: seq<T>, n: nat)
    requires 0 < n <= |s|
    ensures multiset(s[..n]) == multiset(s[..n - 1]) + multiset{s[n - 1]}
    ensures n == |s| ==> s[..n] == s
  {
    assert s[..n] == s[..n - 1] + [s[n - 1]];
  }

  /** The common length is the whole of both exactly when they are equal. */
  lemma WholeIffEqual<T(!new)>(x: seq<T>, y: seq<T>)
    ensures Table(x, y, |x|, |y|) <= |x| && Table(x, y, |x|, |y|) <= |y|
    ensures Table(x, y, |x|, |y|) == |x| == |y| <==> x == y
  {
    var z, f, g := Witness(x, y, |x|, |y|);
    EmbeddedLength(z, x, |x|, f);
    EmbeddedLength(z, y, |y|, g);
    if x == y {
      var id := seq(|x|, i => i);
      NoneLonger(x, y, |x|, |y|, x, id, id);
    }
  }

  /** At most `n` elements fit in `n` places, and when they fill them they are what is there. */
  lemma {:induction false} EmbeddedLength<T>(z: seq<T>, x: seq<T>, n: nat, f: seq<nat>)
    requires Embeds(z, x, n, f)
    ensures |z| <= n
    ensures |z| == n ==> z == x[..n]
    decreases n
  {
    if z != [] {
      DropLast(z, x, n, f, f[|f| - 1]);
      EmbeddedLength(z[..|z| - 1], x, f[|f| - 1], f[..|f| - 1]);
      if |z| == n {
        assert z == z[..|z| - 1] + [z[|z| - 1]];
      }
    }
  }
}
