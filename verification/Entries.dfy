/** Attention entries added up one by one: what scores are measured against. */
module Entries {
  import opened Nums
  import opened Shares

  /** The entries of the rows at slot `j`, added up. */
  function PaidTo(rows: seq<Vec>, j: nat): real
    requires forall r :: 0 <= r < |rows| ==> j < |rows[r]|
  {
    if rows == [] then 0.0 else rows[0][j] + PaidTo(rows[1..], j)
  }

  lemma {:induction false} ColumnPays(rows: seq<Vec>, j: nat)
    requires forall r :: 0 <= r < |rows| ==> j < |rows[r]|
    ensures Sum(Column(rows, j)) == PaidTo(rows, j)
  {
    if rows != [] {
      ColumnPays(rows[1..], j);
      assert Column(rows, j)[1..] == Column(rows[1..], j);
    }
  }

  lemma {:induction false} PaidAppend(x: seq<Vec>, y: seq<Vec>, len: nat, j: nat)
    requires Shaped(x, len) && Shaped(y, len) && j < len
    ensures Shaped(x + y, len) && PaidTo(x + y, j) == PaidTo(x, j) + PaidTo(y, j)
  {
    if x == [] {
      assert x + y == y;
    } else {
      assert (x + y)[1..] == x[1..] + y;
      PaidAppend(x[1..], y, len, j);
    }
  }

  /** Every query head's rows reach over `len` slots. */
  ghost predicate AllShaped(att: seq<seq<Vec>>, len: nat) {
    forall q :: 0 <= q < |att| ==> Shaped(att[q], len)
  }

  /** What query heads `a` to `b - 1` pay slot `j`: the entries `att[q][t][j]`, added up. */
  function HeadsPay(att: seq<seq<Vec>>, a: nat, b: nat, len: nat, j: nat): real
    requires a <= b <= |att| && j < len && AllShaped(att, len)
  {
    if a == b then 0.0 else HeadsPay(att, a, b - 1, len, j) + PaidTo(att[b - 1], j)
  }

  /** First query head of the group of key/value head `h`. */
  function FirstOf(nQ: nat, nHeads: nat, h: nat): (a: nat)
    requires nHeads > 0 && h <= nHeads && nQ % nHeads == 0
    ensures a <= nQ && a == h * (nQ / nHeads)
  {
    if h < nHeads then ShareBounds(nHeads, nQ, h); h * (nQ / nHeads) else WholeShares(nQ, nHeads); h * (nQ / nHeads)
  }

  lemma WholeShares(nQ: nat, nHeads: nat)
    requires nHeads > 0 && nQ % nHeads == 0
    ensures nHeads * (nQ / nHeads) == nQ
  {}
}
