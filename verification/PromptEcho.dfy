/** Stripping the echoed prompt from a generated string, with its binary search for the longest echoed head. */
module PromptEcho {
  import opened Options
  import opened Nums

  /** The tokenizer and the whitespace test, as far as stripping calls them. `clean` is the prompt encoded
      and decoded again; `None` is an exception. */
  datatype Tokenizer = Tokenizer(
    clean: Option<string>,
    encode: string -> Option<seq<int>>,
    decode: seq<int> -> Option<string>,
    space: char -> bool)

  datatype Stripped = Stripped(text: string, matched: bool)

  const SUBSTANTIAL := 200

  // ---- heads and tails of strings ----

  predicate StartsWith(text: string, head: string) {
    |head| <= |text| && text[..|head|] == head
  }

  /** How many leading characters two strings share. */
  function Head(a: string, b: string): (n: nat)
    ensures n <= |a| && n <= |b|
  {
    if a == "" || b == "" || a[0] != b[0] then 0 else 1 + Head(a[1..], b[1..])
  }

  function LStrip(space: char -> bool, s: string): (r: string)
    ensures |r| <= |s| && r == s[|s| - |r|..]
    ensures r != "" ==> !space(r[0])
  {
    if s != "" && space(s[0]) then LStrip(space, s[1..]) else s
  }

  /** The head is the longest shared one, and prefix matching is downward closed. */
  lemma {:induction false} HeadIsLongest(a: string, b: string, k: nat)
    requires k <= |a|
    ensures StartsWith(b, a[..k]) <==> k <= Head(a, b)
  {
    if k > 0 {
      if |b| > 0 && a[0] == b[0] {
        HeadIsLongest(a[1..], b[1..], k - 1);
        assert a[..k] == [a[0]] + a[1..][..k - 1];
        if |b| >= k { assert b[..k] == [b[0]] + b[1..][..k - 1]; }
      } else if |b| >= k {
        assert b[..k][0] == b[0] && a[..k][0] == a[0];
      }
    }
  }

  /** The binary search finds the length of the longest shared head. */
  method LongestHead(clean: string, text: string) returns (lo: nat)
    ensures lo == Head(clean, text)
  {
    lo := 0;
    var hi: nat := Least(|clean|, |text|);
    while lo < hi
      invariant lo <= Head(clean, text) <= hi <= |clean|
    {
      var mid := (lo + hi + 1) / 2;
      HeadIsLongest(clean, text, mid);
      if StartsWith(text, clean[..mid]) {
        lo := mid;
      } else {
        hi := mid - 1;
      }
    }
  }

  /** The last `budget` ids; a negative budget drops that many from the front instead. */
  function Tail(ids: seq<int>, budget: int): seq<int>
    requires |ids| > budget
  {
    if budget >= 0 then ids[|ids| - budget..] else ids[Least(-budget, |ids|)..]
  }

  // ---- stripping ----

  /** The bound on the number of generated tokens; a tokenizer failure leaves everything as it was. */
  function Bound(tok: Tokenizer, s: Stripped, budget: int): Stripped {
    if budget == 0 then s
    else
      match tok.encode(s.text)
      case None => s
      case Some(ids) =>
        if |ids| <= budget then s
        else
          match tok.decode(Tail(ids, budget))
          case None => s
          case Some(t) => Stripped(t, false)
  }

  function Strip(tok: Tokenizer, text: string, budget: int): Stripped {
    if text == "" then Stripped(text, true)
    else
      match tok.clean
      case None => Stripped(text, false)
      case Some(clean) =>
        if Echoed(tok, text) then Stripped(LStrip(tok.space, text[|clean|..]), true)
        else Bound(tok, Unechoed(tok.space, clean, text), budget)
  }

  /** Without the whole prompt in front, a long shared head is dropped and reported; a short one is kept. */
  function Unechoed(space: char -> bool, clean: string, text: string): Stripped {
    var lo := Head(clean, text);
    if lo > SUBSTANTIAL then Stripped(LStrip(space, text[lo..]), false) else Stripped(text, true)
  }

  /** The text opens with the whole decoded prompt. */
  predicate Echoed(tok: Tokenizer, text: string) {
    tok.clean.Some? && tok.clean.value != "" && StartsWith(text, tok.clean.value)
  }

  method StripPromptEcho(tok: Tokenizer, text: string, budget: int) returns (r: Stripped)
    ensures r == Strip(tok, text, budget)
  {
    if text == "" { return Stripped(text, true); }
    if tok.clean.None? { return Stripped(text, false); }
    var clean := tok.clean.value;
    if clean != "" && StartsWith(text, clean) {
      return Stripped(LStrip(tok.space, text[|clean|..]), true);
    }
    var lo := LongestHead(clean, text);
    var out, ok := text, true;
    if lo > SUBSTANTIAL { out, ok := LStrip(tok.space, text[lo..]), false; }
    assert Stripped(out, ok) == Unechoed(tok.space, clean, text);
    r := BoundText(tok, out, ok, budget);
  }

  /** The hard bound. */
  method BoundText(tok: Tokenizer, text: string, ok: bool, budget: int) returns (r: Stripped)
    ensures r == Bound(tok, Stripped(text, ok), budget)
  {
    r := Stripped(text, ok);
    if budget != 0 {
      var ids := tok.encode(text);
      if ids.Some? && |ids.value| > budget {
        var t := tok.decode(Tail(ids.value, budget));
        if t.Some? { r := Stripped(t.value, false); }
      }
    }
  }

  // ---- what comes back ----

  lemma {:induction false} LStripGap(space: char -> bool, gap: string, rest: string)
    requires forall i :: 0 <= i < |gap| ==> space(gap[i])
    ensures LStrip(space, gap + rest) == LStrip(space, rest)
  {
    if gap == "" {
      assert gap + rest == rest;
    } else {
      assert (gap + rest)[1..] == gap[1..] + rest;
      LStripGap(space, gap[1..], rest);
    }
  }

  /** Stripping undoes the echo: from prompt, white space and completion it returns the completion, matched,
      exactly when the completion does not itself open with white space. */
  lemma EchoUndone(tok: Tokenizer, gap: string, completion: string, budget: int)
    requires tok.clean.Some? && tok.clean.value != ""
    requires forall i :: 0 <= i < |gap| ==> tok.space(gap[i])
    ensures Strip(tok, tok.clean.value + gap + completion, budget) == Stripped(completion, true)
       <==> (completion == "" || !tok.space(completion[0]))
  {
    var clean := tok.clean.value;
    var text := clean + gap + completion;
    assert text[..|clean|] == clean;
    assert text[|clean|..] == gap + completion;
    LStripGap(tok.space, gap, completion);
  }

  /** An echo that leaves the prompt after `head` is cut where it leaves it, white space aside, if `head` is
      longer than 200 characters; otherwise the whole text comes back as matched. Only the token bound can
      shorten it further. */
  lemma DivergingEcho(tok: Tokenizer, head: string, a: string, b: string, budget: int)
    requires tok.clean == Some(head + a) && head + b != ""
    requires a != "" && (b == "" || a[0] != b[0])
    ensures var cut := if |head| > 200 then Stripped(LStrip(tok.space, b), false) else Stripped(head + b, true);
            && (!Cut(tok, cut.text, budget) ==> Strip(tok, head + b, budget) == cut)
            && (Cut(tok, cut.text, budget) ==>
                 Strip(tok, head + b, budget)
                   == Stripped(tok.decode(Tail(tok.encode(cut.text).value, budget)).value, false))
  {
    LeavesAt(tok, head, a, b);
    BoundCuts(tok, Unechoed(tok.space, head + a, head + b), budget);
  }

  lemma LeavesAt(tok: Tokenizer, head: string, a: string, b: string)
    requires tok.clean == Some(head + a) && a != "" && (b == "" || a[0] != b[0])
    ensures !Echoed(tok, head + b)
    ensures Unechoed(tok.space, head + a, head + b)
         == if |head| > 200 then Stripped(LStrip(tok.space, b), false) else Stripped(head + b, true)
  {
    var clean, text := head + a, head + b;
    HeadOfDiverging(head, a, b);
    HeadIsLongest(clean, text, |clean|);
    assert clean[..|clean|] == clean && text[|head|..] == b;
  }

  lemma BoundCuts(tok: Tokenizer, s: Stripped, budget: int)
    ensures !Cut(tok, s.text, budget) ==> Bound(tok, s, budget) == s
    ensures Cut(tok, s.text, budget) ==>
      Bound(tok, s, budget) == Stripped(tok.decode(Tail(tok.encode(s.text).value, budget)).value, false)
  {}

  lemma {:induction false} HeadOfDiverging(head: string, a: string, b: string)
    requires a == "" || b == "" || a[0] != b[0]
    ensures Head(head + a, head + b) == |head|
  {
    if head == "" {
      assert head + a == a && head + b == b;
    } else {
      assert (head + a)[1..] == head[1..] + a && (head + b)[1..] == head[1..] + b;
      HeadOfDiverging(head[1..], a, b);
    }
  }

  /** When the match flag is set although the prompt was not found at the front of a non-empty text: exactly
      when at most 200 characters are shared and the token bound cuts nothing. */
  lemma MatchedUnfoundIff(tok: Tokenizer, text: string, budget: int)
    requires text != "" && !Echoed(tok, text)
    ensures Strip(tok, text, budget).matched
       <==> (tok.clean.Some? && !Cut(tok, text, budget)
             && forall k :: 200 < k <= |tok.clean.value| ==> !StartsWith(text, tok.clean.value[..k]))
  {
    if tok.clean.Some? {
      var clean := tok.clean.value;
      forall k | 200 < k <= |clean| ensures StartsWith(text, clean[..k]) <==> k <= Head(clean, text) {
        HeadIsLongest(clean, text, k);
      }
      if Head(clean, text) > 200 {
        assert StartsWith(text, clean[..Head(clean, text)]);
      }
    }
  }

  /** The bound replaces the text: it has too many tokens and its tail can be decoded. */
  predicate Cut(tok: Tokenizer, text: string, budget: int) {
    budget != 0 && tok.encode(text).Some? && |tok.encode(text).value| > budget
    && tok.decode(Tail(tok.encode(text).value, budget)).Some?
  }

  /** When the bound cuts, it keeps exactly the last tokens: were the text encoded as `front` and then as many tokens
      as the budget, what the latter decode to comes back, unmatched. */
  lemma CutKeepsLast(tok: Tokenizer, text: string, front: seq<int>, last: seq<int>)
    requires text != "" && tok.clean.Some? && !Echoed(tok, text)
    requires tok.encode(Unechoed(tok.space, tok.clean.value, text).text) == Some(front + last)
    requires front != [] && last != [] && tok.decode(last).Some?
    ensures Strip(tok, text, |last|) == Stripped(tok.decode(last).value, false)
  {
    assert Tail(front + last, |last|) == last;
  }

  /** A negative budget drops that many tokens from the front instead. */
  lemma CutDropsFirst(tok: Tokenizer, text: string, front: seq<int>, last: seq<int>)
    requires text != "" && tok.clean.Some? && !Echoed(tok, text)
    requires tok.encode(Unechoed(tok.space, tok.clean.value, text).text) == Some(front + last)
    requires front != [] && tok.decode(last).Some?
    ensures Strip(tok, text, -|front|) == Stripped(tok.decode(last).value, false)
  {
    assert Tail(front + last, -|front|) == last;
  }

  predicate IsSuffix(s: string, text: string) {
    |s| <= |text| && s == text[|text| - |s|..]
  }

  lemma LStripSuffix(space: char -> bool, text: string, n: nat)
    requires n <= |text|
    ensures IsSuffix(LStrip(space, text[n..]), text)
  {
    var r := LStrip(space, text[n..]);
    assert text[n..][|text| - n - |r|..] == text[|text| - |r|..];
  }

  /** Unless the bound cuts, what comes back is a suffix of the text: nothing is made up. */
  lemma SuffixUnlessCut(tok: Tokenizer, text: string, budget: int)
    requires tok.clean.Some? && !Echoed(tok, text) ==>
               !Cut(tok, Unechoed(tok.space, tok.clean.value, text).text, budget)
    ensures IsSuffix(Strip(tok, text, budget).text, text)
  {
    if text != "" && tok.clean.Some? {
      var clean := tok.clean.value;
      LStripSuffix(tok.space, text, Head(clean, text));
      if Echoed(tok, text) { LStripSuffix(tok.space, text, |clean|); }
    }
  }

  // ---- when the bound on generated tokens holds ----

  /** The text is known to have more tokens than asked for. */
  predicate Over(tok: Tokenizer, text: string, budget: int) {
    tok.encode(text).Some? && |tok.encode(text).value| > budget
  }

  /** The bound does its part: cutting the text brings it within the budget. */
  predicate CutSuffices(tok: Tokenizer, text: string, budget: nat) {
    Over(tok, text, budget) ==>
      var t := tok.decode(Tail(tok.encode(text).value, budget));
      t.Some? && !Over(tok, t.value, budget)
  }

  /** Without the whole prompt in front, the result is within the budget exactly when the tokenizer can decode
      the last tokens and does not re-encode them as more; whatever else it does or fails to do. */
  lemma UnfoundIsBoundedIff(tok: Tokenizer, text: string, budget: nat)
    requires budget > 0 && text != "" && tok.clean.Some? && !Echoed(tok, text)
    ensures !Over(tok, Strip(tok, text, budget).text, budget)
       <==> CutSuffices(tok, Unechoed(tok.space, tok.clean.value, text).text, budget)
  {}

  /** A found echo ignores the budget altogether. */
  lemma EchoIgnoresBudget(tok: Tokenizer, text: string, a: int, b: int)
    requires Echoed(tok, text)
    ensures Strip(tok, text, a) == Strip(tok, text, b)
  {}

  /** Whatever completion follows an echo comes back whole, over the budget or not. */
  lemma CompletionComesBack(tok: Tokenizer, c: string, budget: int)
    requires tok.clean.Some? && tok.clean.value != "" && Completion(tok, c)
    ensures Echoed(tok, tok.clean.value + c) && Strip(tok, tok.clean.value + c, budget).text == c
  {
    var clean := tok.clean.value;
    EchoUndone(tok, "", c, budget);
    assert clean + "" + c == clean + c && (clean + c)[..|clean|] == clean;
  }

  lemma EchoLeavesCompletion(tok: Tokenizer, text: string, budget: int)
    requires Echoed(tok, text)
    ensures Completion(tok, Strip(tok, text, budget).text)
  {}

  /** For every tokenizer on which cutting brings a text within the budget, the bound on generated tokens holds
      of all texts if and only if no completion is over it: only a found echo escapes the bound. */
  lemma BoundHoldsIff(tok: Tokenizer, budget: nat)
    requires budget > 0 && tok.clean.Some? && tok.clean.value != "" && forall t :: CutSuffices(tok, t, budget)
    ensures (forall text :: !Over(tok, Strip(tok, text, budget).text, budget))
       <==> forall c :: Completion(tok, c) ==> !Over(tok, c, budget)
  {
    if c :| Completion(tok, c) && Over(tok, c, budget) {
      CompletionComesBack(tok, c, budget);
    } else {
      forall text ensures !Over(tok, Strip(tok, text, budget).text, budget) {
        if Echoed(tok, text) {
          EchoLeavesCompletion(tok, text, budget);
        } else if text != "" {
          UnfoundIsBoundedIff(tok, text, budget);
        }
      }
    }
  }

  /** What can be left after the white space behind an echo. */
  predicate Completion(tok: Tokenizer, c: string) {
    c == "" || !tok.space(c[0])
  }

  /** One token for every character. */
  function CharTokenizer(clean: string): Tokenizer {
    Tokenizer(Some(clean), (s: string) => Some(Codes(s)), (ids: seq<int>) => Some(Chars(ids)), IsSpace)
  }

  predicate IsSpace(c: char) {
    c == ' '
  }

  function Codes(s: string): (ids: seq<int>)
    ensures |ids| == |s|
  {
    seq(|s|, i requires 0 <= i < |s| => s[i] as int)
  }

  function Chars(ids: seq<int>): (s: string)
    ensures |s| == |ids|
  {
    seq(|ids|, i requires 0 <= i < |ids| => if 0 <= ids[i] < 128 then ids[i] as char else '?')
  }

  /** A failing input: one token was asked for, and three come back behind a found echo. */
  lemma EchoExceedsBudget()
    ensures var tok := CharTokenizer("Q");
            Strip(tok, "Q abc", 1) == Stripped("abc", true) && Over(tok, "abc", 1)
  {
    var tok := CharTokenizer("Q");
    EchoUndone(tok, " ", "abc", 1);
    assert "Q" + " " + "abc" == "Q abc";
  }
}
