/** LongBench text metrics in exact arithmetic: exact match, token F1 and Rouge-L, each the best over
    the gold answers. Lower-casing and the removal of punctuation and articles are one parameter. */
module Scoring {
  import opened Lcs

  /** The text layer: `clean` is everything normalisation does before splitting, `space` is what
      `str.split` splits on. */
  datatype Text = Text(clean: string -> string, space: char -> bool)

  // ---- splitting ----

  function WordLength(t: Text, s: string): (n: nat)
    ensures n <= |s|
  {
    if s == "" || t.space(s[0]) then 0 else 1 + WordLength(t, s[1..])
  }

  function Split(t: Text, s: string): (ws: seq<string>)
    decreases |s|
  {
    if s == "" then []
    else if t.space(s[0]) then Split(t, s[1..])
    else
      var n := WordLength(t, s);
      assert n >= 1;
      [s[..n]] + Split(t, s[n..])
  }

  function Join(ws: seq<string>): string {
    if ws == [] then "" else if |ws| == 1 then ws[0] else ws[0] + " " + Join(ws[1..])
  }

  function Normalize(t: Text, s: string): string {
    Join(Split(t, t.clean(s)))
  }

  function Tokens(t: Text, s: string): seq<string> {
    Split(t, Normalize(t, s))
  }

  ghost predicate Words(t: Text, ws: seq<string>) {
    forall i :: 0 <= i < |ws| ==> Word(t, ws[i])
  }

  ghost predicate Word(t: Text, w: string) {
    w != "" && forall k :: 0 <= k < |w| ==> !t.space(w[k])
  }

  lemma {:induction false} WordLengthIs(t: Text, w: string, rest: string)
    requires (forall k :: 0 <= k < |w| ==> !t.space(w[k])) && (rest == "" || t.space(rest[0]))
    ensures WordLength(t, w + rest) == |w|
    decreases |w|
  {
    if w == "" {
      assert w + rest == rest;
    } else {
      assert (w + rest)[1..] == w[1..] + rest;
      WordLengthIs(t, w[1..], rest);
    }
  }

  lemma {:induction false} WordLengthBound(t: Text, s: string, k: nat)
    requires k < WordLength(t, s)
    ensures !t.space(s[k])
    decreases |s|
  {
    if k > 0 { WordLengthBound(t, s[1..], k - 1); }
  }

  lemma {:induction false} SplitWords(t: Text, s: string)
    ensures Words(t, Split(t, s))
    decreases |s|
  {
    if s != "" {
      if t.space(s[0]) {
        SplitWords(t, s[1..]);
      } else {
        var n := WordLength(t, s);
        forall k | 0 <= k < n ensures !t.space(s[..n][k]) { WordLengthBound(t, s, k); }
        assert Word(t, s[..n]);
        SplitWords(t, s[n..]);
      }
    }
  }

  lemma SplitFirst(t: Text, w: string, rest: string)
    requires Word(t, w) && (rest == "" || t.space(rest[0]))
    ensures Split(t, w + rest) == [w] + Split(t, rest)
  {
    WordLengthIs(t, w, rest);
    var s := w + rest;
    assert s[0] == w[0] && s[..|w|] == w && s[|w|..] == rest;
  }

  /** White space before a text changes nothing; with `SplitFirst` this determines every split. */
  lemma {:induction false} SplitSkips(t: Text, gap: string, s: string)
    requires forall k :: 0 <= k < |gap| ==> t.space(gap[k])
    ensures Split(t, gap + s) == Split(t, s) && Split(t, gap) == []
    decreases |gap|
  {
    if gap == "" {
      assert gap + s == s;
    } else {
      assert (gap + s)[1..] == gap[1..] + s;
      SplitSkips(t, gap[1..], s);
    }
  }

  /** Splitting undoes joining words with single spaces. */
  lemma {:induction false} SplitJoin(t: Text, ws: seq<string>)
    requires Words(t, ws) && t.space(' ')
    ensures Split(t, Join(ws)) == ws
  {
    if |ws| == 1 {
      SplitFirst(t, ws[0], "");
      assert ws[0] + "" == ws[0];
    } else if ws != [] {
      var rest := " " + Join(ws[1..]);
      SplitJoin(t, ws[1..]);
      SplitFirst(t, ws[0], rest);
      assert rest[1..] == Join(ws[1..]);
      assert ws[0] + " " + Join(ws[1..]) == ws[0] + rest;
    }
  }

  /** Two normalised texts are equal exactly when their token lists are. */
  lemma NormalizeTokens(t: Text, a: string, b: string)
    requires t.space(' ')
    ensures Tokens(t, a) == Split(t, t.clean(a))
    ensures Normalize(t, a) == Normalize(t, b) <==> Tokens(t, a) == Tokens(t, b)
  {
    SplitWords(t, t.clean(a));
    SplitJoin(t, Split(t, t.clean(a)));
    SplitWords(t, t.clean(b));
    SplitJoin(t, Split(t, t.clean(b)));
  }

  // ---- the metrics ----

  function Common(p: seq<string>, g: seq<string>): nat {
    |multiset(p) * multiset(g)|
  }

  function Harmonic(p: real, r: real): real
    requires p + r != 0.0
  {
    2.0 * p * r / (p + r)
  }

  function TokenF1(p: seq<string>, g: seq<string>): real {
    if p == [] || g == [] then (if p == g then 1.0 else 0.0)
    else
      var n := Common(p, g);
      if n == 0 then 0.0
      else
        var precision, recall := n as real / |p| as real, n as real / |g| as real;
        SharesPositive(n, |p|, |g|);
        Harmonic(precision, recall)
  }

  function RougeLSingle(p: seq<string>, g: seq<string>): real {
    if p == [] || g == [] then 0.0
    else
      var n := Table(p, g, |p|, |g|);
      var precision, recall := n as real / |p| as real, n as real / |g| as real;
      if precision + recall != 0.0 then Harmonic(precision, recall) else 0.0
  }

  function Best(scores: seq<real>): real
    requires scores != []
  {
    if |scores| == 1 then scores[0]
    else
      var m := Best(scores[..|scores| - 1]);
      if m < scores[|scores| - 1] then scores[|scores| - 1] else m
  }

  function ComputeEm(t: Text, prediction: string, answers: seq<string>): real {
    if exists a :: a in answers && Normalize(t, a) == Normalize(t, prediction) then 1.0 else 0.0
  }

  function ComputeF1(t: Text, prediction: string, answers: seq<string>): real {
    if answers == [] then 0.0
    else Best(seq(|answers|, i requires 0 <= i < |answers| => TokenF1(Tokens(t, prediction), Tokens(t, answers[i]))))
  }

  function ComputeRougeL(t: Text, prediction: string, answers: seq<string>): real {
    if answers == [] then 0.0
    else Best(seq(|answers|,
                  i requires 0 <= i < |answers| => RougeLSingle(Tokens(t, prediction), Tokens(t, answers[i]))))
  }

  // ---- both are twice the common count over the total length ----

  lemma SharesPositive(n: nat, a: nat, b: nat)
    requires a > 0 && b > 0
    ensures n > 0 ==> n as real / a as real > 0.0 && n as real / b as real > 0.0
    ensures n == 0 ==> n as real / a as real == 0.0 && n as real / b as real == 0.0
  {}

  lemma HarmonicIs(n: real, a: real, b: real)
    requires n > 0.0 && a > 0.0 && b > 0.0
    ensures n / a + n / b > 0.0 && Harmonic(n / a, n / b) == 2.0 * n / (a + b)
  {
    Share(n, a);
    Share(n, b);
    HarmonicProduct(n / a, n / b, a, b, n);
    Quotients(2.0 * (n / a) * (n / b), n / a + n / b, 2.0 * n, a + b);
  }

  lemma Share(n: real, a: real)
    requires n > 0.0 && a > 0.0
    ensures n / a > 0.0 && n / a * a == n
  {}

  /** `2 p r (a + b) == 2 n (p + r)` when `p a == n == r b`. */
  lemma HarmonicProduct(p: real, r: real, a: real, b: real, n: real)
    requires p * a == n && r * b == n
    ensures 2.0 * p * r * (a + b) == 2.0 * n * (p + r)
  {
    assert 2.0 * p * r * a == 2.0 * r * (p * a);
    assert 2.0 * p * r * b == 2.0 * p * (r * b);
  }

  lemma Quotients(x: real, y: real, u: real, v: real)
    requires y > 0.0 && v > 0.0 && x * v == u * y
    ensures x / y == u / v
  {
    var q := x / y;
    assert q * y == x;
    assert (q * v) * y == u * y;
    assert q * v == u;
  }

  function Ratio(n: nat, p: seq<string>, g: seq<string>): real
    requires p != [] && g != []
  {
    2.0 * n as real / (|p| + |g|) as real
  }

  /** On non-empty token lists both metrics are `2 common / (|p| + |g|)`, for their notion of common. */
  lemma MetricsAreRatios(p: seq<string>, g: seq<string>)
    requires p != [] && g != []
    ensures TokenF1(p, g) == Ratio(Common(p, g), p, g)
    ensures RougeLSingle(p, g) == Ratio(Table(p, g, |p|, |g|), p, g)
  {
    RatioOf(Common(p, g), p, g);
    RatioOf(Table(p, g, |p|, |g|), p, g);
  }

  /** Times the tokens of both lists, F1 is twice the common ones and Rouge-L twice the common subsequence. */
  lemma MetricsTimesTokens(p: seq<string>, g: seq<string>)
    requires p != [] && g != []
    ensures TimesTokens(TokenF1(p, g), |p| + |g|, Common(p, g))
    ensures TimesTokens(RougeLSingle(p, g), |p| + |g|, Table(p, g, |p|, |g|))
  {
    MetricsAreRatios(p, g);
    RatioTimesTokens(Common(p, g), p, g);
    RatioTimesTokens(Table(p, g, |p|, |g|), p, g);
  }

  lemma RatioTimesTokens(n: nat, p: seq<string>, g: seq<string>)
    requires p != [] && g != []
    ensures TimesTokens(Ratio(n, p, g), |p| + |g|, n)
  {
    RatioTimes(n, p, g);
  }

  predicate TimesTokens(score: real, tokens: nat, common: nat) {
    score * tokens as real == 2.0 * common as real
  }

  /** The common count is the size of the largest multiset of tokens contained in both lists. */
  lemma CommonIsLargest(p: seq<string>, g: seq<string>)
    ensures exists m :: m <= multiset(p) && m <= multiset(g) && |m| == Common(p, g)
    ensures forall m :: m <= multiset(p) && m <= multiset(g) ==> |m| <= Common(p, g)
  {
    var both := multiset(p) * multiset(g);
    assert both <= multiset(p) && both <= multiset(g);
    forall m | m <= multiset(p) && m <= multiset(g) ensures |m| <= Common(p, g) { SubsetCount(m, both); }
  }

  lemma RatioOf(n: nat, p: seq<string>, g: seq<string>)
    requires p != [] && g != []
    ensures var x, y := n as real / |p| as real, n as real / |g| as real;
            && (x + y == 0.0 <==> n == 0) && (n == 0 ==> Ratio(n, p, g) == 0.0)
            && (n > 0 ==> Harmonic(x, y) == Ratio(n, p, g))
  {
    SharesPositive(n, |p|, |g|);
    if n > 0 { HarmonicIs(n as real, |p| as real, |g| as real); }
  }

  // ---- the order between them ----

  lemma SubsetCount<T>(a: multiset<T>, b: multiset<T>)
    requires a <= b
    ensures |a| <= |b| && (|a| == |b| ==> a == b)
  {
    assert b == a + (b - a);
  }

  /** A common subsequence is contained in the multiset intersection, which fits in either side. */
  lemma LcsWithinCommon(p: seq<string>, g: seq<string>)
    ensures Table(p, g, |p|, |g|) <= Common(p, g) <= |p|
    ensures Common(p, g) <= |g|
  {
    var z, f, h := Witness(p, g, |p|, |g|);
    EmbeddedMultiset(z, p, |p|, f);
    EmbeddedMultiset(z, g, |g|, h);
    assert p[..|p|] == p && g[..|g|] == g;
    SubsetCount(multiset(z), multiset(p) * multiset(g));
    SubsetCount(multiset(p) * multiset(g), multiset(p));
    SubsetCount(multiset(p) * multiset(g), multiset(g));
  }

  lemma RatioMonotone(m: nat, n: nat, p: seq<string>, g: seq<string>)
    requires p != [] && g != [] && m <= n
    ensures Ratio(m, p, g) <= Ratio(n, p, g)
    ensures 2 * n <= |p| + |g| ==> Ratio(n, p, g) <= 1.0
    ensures Ratio(n, p, g) == 1.0 <==> 2 * n == |p| + |g|
  {
    RatioTimes(m, p, g);
    RatioTimes(n, p, g);
    Order(Ratio(m, p, g), Ratio(n, p, g), (|p| + |g|) as real, 2 * m, 2 * n, |p| + |g|);
  }

  lemma Order(x: real, y: real, t: real, m: int, n: int, s: int)
    requires s > 0 && t == s as real && x * t == m as real && y * t == n as real && m <= n
    ensures x <= y && (n <= s ==> y <= 1.0) && (y == 1.0 <==> n == s)
  {
    Compare(y, x, t);
    AgainstOne(y, t);
  }

  lemma RatioTimes(n: nat, p: seq<string>, g: seq<string>)
    requires p != [] && g != []
    ensures Ratio(n, p, g) * (|p| + |g|) as real == (2 * n) as real
  {}

  lemma AgainstOne(y: real, t: real)
    requires t > 0.0
    ensures (y <= 1.0 <==> y * t <= t) && (y == 1.0 <==> y * t == t)
  {
    Compare(y, 1.0, t);
    Compare(1.0, y, t);
  }

  lemma Compare(a: real, b: real, c: real)
    requires c > 0.0
    ensures a * c < b * c <==> a < b
  {
    if a < b { LessTimes(a, b, c); }
    if b < a { LessTimes(b, a, c); }
  }

  lemma LessTimes(a: real, b: real, c: real)
    requires a < b && c > 0.0
    ensures a * c < b * c
  {}

  /** Rouge-L never exceeds token F1, and neither exceeds one. */
  lemma SingleOrder(p: seq<string>, g: seq<string>)
    ensures 0.0 <= RougeLSingle(p, g) <= TokenF1(p, g) <= 1.0
  {
    if p != [] && g != [] {
      MetricsAreRatios(p, g);
      LcsWithinCommon(p, g);
      RatioMonotone(0, Table(p, g, |p|, |g|), p, g);
      RatioMonotone(Table(p, g, |p|, |g|), Common(p, g), p, g);
    }
  }

  /** Both metrics are symmetric in prediction and answer. */
  lemma SingleSymmetric(p: seq<string>, g: seq<string>)
    ensures TokenF1(p, g) == TokenF1(g, p) && RougeLSingle(p, g) == RougeLSingle(g, p)
  {
    if p != [] && g != [] {
      MetricsAreRatios(p, g);
      MetricsAreRatios(g, p);
      Symmetric(p, g);
      assert multiset(p) * multiset(g) == multiset(g) * multiset(p);
    }
  }

  /** Rouge-L is one exactly on equal non-empty token lists; F1 is one exactly on rearrangements. */
  lemma SingleOnes(p: seq<string>, g: seq<string>)
    ensures RougeLSingle(p, g) == 1.0 <==> p == g && p != []
    ensures TokenF1(p, g) == 1.0 <==> multiset(p) == multiset(g)
  {
    if p != [] && g != [] {
      MetricsAreRatios(p, g);
      LcsWithinCommon(p, g);
      WholeIffEqual(p, g);
      var n, c := Table(p, g, |p|, |g|), Common(p, g);
      RatioMonotone(n, n, p, g);
      RatioMonotone(c, c, p, g);
      var both := multiset(p) * multiset(g);
      if 2 * c == |p| + |g| {
        SubsetCount(both, multiset(p));
        SubsetCount(both, multiset(g));
      }
      if multiset(p) == multiset(g) {
        assert both == multiset(p);
      }
    } else {
      assert p == [] <==> |multiset(p)| == 0;
      assert g == [] <==> |multiset(g)| == 0;
    }
  }

  /** Rouge-L is zero exactly when no token is in both lists; so is F1, save that two empty lists match. */
  lemma SingleZeros(p: seq<string>, g: seq<string>)
    ensures RougeLSingle(p, g) == 0.0 <==> forall x :: x in p ==> x !in g
    ensures TokenF1(p, g) == 0.0 <==> (forall x :: x in p ==> x !in g) && p + g != []
  {
    if p != [] && g != [] {
      MetricsTimesTokens(p, g);
      LcsWithinCommon(p, g);
      ZeroIff(TokenF1(p, g), |p| + |g|, Common(p, g));
      ZeroIff(RougeLSingle(p, g), |p| + |g|, Table(p, g, |p|, |g|));
      SharedToken(p, g);
    }
  }

  lemma ZeroIff(score: real, tokens: nat, common: nat)
    requires tokens > 0 && TimesTokens(score, tokens, common)
    ensures score == 0.0 <==> common == 0
  {}

  lemma SharedToken(p: seq<string>, g: seq<string>)
    ensures Common(p, g) == 0 <==> forall x :: x in p ==> x !in g
    ensures Table(p, g, |p|, |g|) == 0 <==> Common(p, g) == 0
  {
    LcsWithinCommon(p, g);
    var both := multiset(p) * multiset(g);
    if x :| x in p && x in g {
      assert x in both;
      var i, j :| 0 <= i < |p| && p[i] == x && 0 <= j < |g| && g[j] == x;
      assert Embeds([x], p, |p|, [i]) && Embeds([x], g, |g|, [j]);
      NoneLonger(p, g, |p|, |g|, [x], [i], [j]);
    } else {
      assert forall x :: x in both ==> x in p && x in g;
      assert both == multiset{};
    }
  }

  // ---- over all answers ----

  lemma {:induction false} BestIs(scores: seq<real>)
    requires scores != []
    ensures Best(scores) in scores && forall i :: 0 <= i < |scores| ==> scores[i] <= Best(scores)
  {
    if |scores| > 1 {
      BestIs(scores[..|scores| - 1]);
    }
  }

  /** The score of a prediction is the best one over the answers, and zero without answers; an exact match is an answer
      that normalises alike. */
  lemma BestOverAnswers(t: Text, prediction: string, answers: seq<string>)
    ensures var p := Tokens(t, prediction);
            && (forall i :: 0 <= i < |answers| ==>
                  && TokenF1(p, Tokens(t, answers[i])) <= ComputeF1(t, prediction, answers)
                  && RougeLSingle(p, Tokens(t, answers[i])) <= ComputeRougeL(t, prediction, answers))
            && (answers != [] ==>
                  && (exists i ::
                        0 <= i < |answers| && ComputeF1(t, prediction, answers) == TokenF1(p, Tokens(t, answers[i])))
                  && exists i ::
                       0 <= i < |answers|
                       && ComputeRougeL(t, prediction, answers) == RougeLSingle(p, Tokens(t, answers[i])))
            && (answers == [] ==> ComputeF1(t, prediction, answers) == ComputeRougeL(t, prediction, answers) == 0.0)
    ensures ComputeEm(t, prediction, answers) in {0.0, 1.0}
    ensures ComputeEm(t, prediction, answers) == 1.0
       <==> exists i :: 0 <= i < |answers| && Normalize(t, answers[i]) == Normalize(t, prediction)
  {
    if a :| a in answers && Normalize(t, a) == Normalize(t, prediction) {
      var i :| 0 <= i < |answers| && answers[i] == a;
    }
    if answers != [] {
      var p := Tokens(t, prediction);
      var f1 := seq(|answers|, i requires 0 <= i < |answers| => TokenF1(p, Tokens(t, answers[i])));
      var rouge := seq(|answers|, i requires 0 <= i < |answers| => RougeLSingle(p, Tokens(t, answers[i])));
      BestIs(f1);
      BestIs(rouge);
      forall i | 0 <= i < |answers|
        ensures TokenF1(p, Tokens(t, answers[i])) <= ComputeF1(t, prediction, answers)
        ensures RougeLSingle(p, Tokens(t, answers[i])) <= ComputeRougeL(t, prediction, answers)
      {
        assert f1[i] == TokenF1(p, Tokens(t, answers[i])) && rouge[i] == RougeLSingle(p, Tokens(t, answers[i]));
      }
      var k :| 0 <= k < |f1| && f1[k] == Best(f1);
      var l :| 0 <= l < |rouge| && rouge[l] == Best(rouge);
      assert ComputeF1(t, prediction, answers) == TokenF1(p, Tokens(t, answers[k]));
      assert ComputeRougeL(t, prediction, answers) == RougeLSingle(p, Tokens(t, answers[l]));
    }
  }

  /** For every prediction and every list of answers, Rouge-L is at most F1, which is at most one. */
  lemma RougeNeverExceedsF1(t: Text, prediction: string, answers: seq<string>)
    ensures 0.0 <= ComputeRougeL(t, prediction, answers) <= ComputeF1(t, prediction, answers) <= 1.0
  {
    if answers != [] {
      var p := Tokens(t, prediction);
      var rouge := seq(|answers|, i requires 0 <= i < |answers| => RougeLSingle(p, Tokens(t, answers[i])));
      var f1 := seq(|answers|, i requires 0 <= i < |answers| => TokenF1(p, Tokens(t, answers[i])));
      BestIs(rouge);
      BestIs(f1);
      var k :| 0 <= k < |rouge| && rouge[k] == Best(rouge);
      SingleOrder(p, Tokens(t, answers[k]));
      assert f1[k] == TokenF1(p, Tokens(t, answers[k]));
      var l :| 0 <= l < |f1| && f1[l] == Best(f1);
      SingleOrder(p, Tokens(t, answers[l]));
    }
  }

  /** An exact match forces F1 to one. */
  lemma ExactMatchForcesF1(t: Text, prediction: string, answers: seq<string>)
    requires t.space(' ') && ComputeEm(t, prediction, answers) == 1.0
    ensures ComputeF1(t, prediction, answers) == 1.0
  {
    var a :| a in answers && Normalize(t, a) == Normalize(t, prediction);
    var k :| 0 <= k < |answers| && answers[k] == a;
    var p := Tokens(t, prediction);
    NormalizeTokens(t, a, prediction);
    SingleOnes(p, Tokens(t, a));
    var f1 := seq(|answers|, i requires 0 <= i < |answers| => TokenF1(p, Tokens(t, answers[i])));
    BestIs(f1);
    assert f1[k] == 1.0;
    RougeNeverExceedsF1(t, prediction, answers);
  }
}
