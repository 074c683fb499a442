/** Equal consecutive shares of a list: the query heads that share a key/value head. */
module Shares {
  import opened Nums

  lemma ShareBounds(n: nat, m: nat, h: nat)
    requires h < n && m % n == 0
    ensures 0 <= h * (m / n) <= h * (m / n) + m / n == (h + 1) * (m / n) <= m
  {
    var g := m / n;
    assert n * g == m;
    MulMonoInt(0, h, g);
    MulMonoInt(h + 1, n, g);
    NextMultiple(h, g);
  }

  lemma NextMultiple(h: nat, g: nat)
    ensures h * g + g == (h + 1) * g
  {}

  /** The `h`-th of `n` equal shares. */
  function Share<T>(s: seq<T>, n: nat, h: nat): (r: seq<T>)
    requires h < n && |s| % n == 0
    ensures |r| == |s| / n && (s != [] ==> r != [])
    ensures forall i :: 0 <= i < |r| ==> r[i] in s
  {
    ShareBounds(n, |s|, h);
    s[h * (|s| / n)..(h + 1) * (|s| / n)]
  }

  function FirstShares<T>(s: seq<T>, n: nat, h: nat): seq<T>
    requires h <= n && n > 0 && |s| % n == 0
  {
    if h == 0 then [] else FirstShares(s, n, h - 1) + Share(s, n, h - 1)
  }

  /** The shares partition the list, in order: together they are all of it. */
  lemma {:induction false} SharesCover<T>(s: seq<T>, n: nat, h: nat)
    requires h <= n && n > 0 && |s| % n == 0
    ensures 0 <= h * (|s| / n) <= |s| && FirstShares(s, n, h) == s[..h * (|s| / n)]
    ensures h == n ==> FirstShares(s, n, h) == s
  {
    var g := |s| / n;
    assert n * g == |s|;
    if h > 0 {
      SharesCover(s, n, h - 1);
      ShareBounds(n, |s|, h - 1);
      TakeMore(s, (h - 1) * g, h * g);
    }
  }

  lemma TakeMore<T>(s: seq<T>, a: nat, b: nat)
    requires a <= b <= |s|
    ensures s[..a] + s[a..b] == s[..b]
  {}
}
