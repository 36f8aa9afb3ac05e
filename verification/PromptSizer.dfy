/** `Runner::sized_prompt`: growing or shrinking a filler prompt until the
    engine counts it close enough to a target. The tokenizer is any function of
    the round and the text, so it need not even be consistent. Exact reals. */
module PromptSizer {
  import opened Wrappers
  import opened Numbers

  const SIZING_ROUNDS: nat := 8
  const SIZING_TOLERANCE: real := 0.05
  const FILLER: string := "the quick brown fox jumps over the lazy dog "

  datatype SizedPrompt = SizedPrompt(text: string, tokens: nat)

  datatype BenchError = EngineFailed | PromptSize(requested: nat, achieved: nat) | NothingMeasured

  /** One question put to the engine, and its answer. */
  datatype Query = Query(words: nat, text: string, counted: nat)

  type Tokenizer = (nat, string) -> Option<nat>

  function Repeat(s: string, n: nat): (r: string)
    ensures |r| == n * |s|
  {
    if n == 0 then "" else s + Repeat(s, n - 1)
  }

  function Prompt(words: nat): string { Repeat(FILLER, Max(words, 1) / 9 + 1) }

  function Ceiling(target: nat): nat { Max(4 * target, 16) }

  function Distance(a: nat, b: nat): nat { if a < b then b - a else a - b }

  /** `|counted - target| / max(target, 1) <= tolerance` */
  predicate Within(counted: nat, target: nat, tolerance: real) {
    Distance(counted, target) as real / (Max(target, 1) as real) <= tolerance
  }

  function NextWords(target: nat, words: nat, counted: nat): nat {
    var scaled := words as real * (target as real / (Max(counted, 1) as real));
    Min(Max((scaled + 0.5).Floor, 1), Ceiling(target))
  }

  /** The first of the queries whose count is closest to the target. */
  ghost predicate FirstClosest(trace: seq<Query>, target: nat, k: nat) {
    && k < |trace|
    && (forall j :: 0 <= j < |trace| ==> Distance(trace[k].counted, target) <= Distance(trace[j].counted, target))
    && (forall j :: 0 <= j < k ==> Distance(trace[k].counted, target) < Distance(trace[j].counted, target))
  }

  /** Each query asks for the text its word count denotes, within the ceiling,
      and got the tokenizer's answer for that round; each word count is scaled
      from the previous answer. */
  ghost predicate Steered(trace: seq<Query>, target: nat, count: Tokenizer) {
    && (forall k :: 0 <= k < |trace| ==>
          && 1 <= trace[k].words <= Ceiling(target)
          && trace[k].text == Prompt(trace[k].words)
          && count(k, trace[k].text) == Some(trace[k].counted))
    && (|trace| > 0 ==> trace[0].words == Max(target, 1))
    && (forall k :: 0 < k < |trace| ==> trace[k].words == NextWords(target, trace[k - 1].words, trace[k - 1].counted))
  }

  /** Why asking again would not help. */
  ghost predicate NothingToGain(trace: seq<Query>, target: nat) {
    && |trace| > 0
    && var last := trace[|trace| - 1];
       || Within(last.counted, target, SIZING_TOLERANCE)
       || (|trace| > 1 && trace[|trace| - 2].counted == last.counted)
       || NextWords(target, last.words, last.counted) == last.words
  }

  /** Every query but the last left something to gain. */
  ghost predicate KeptGoing(trace: seq<Query>, target: nat) {
    forall k :: 0 < k < |trace| ==> !NothingToGain(trace[..k], target)
  }

  /** The word count of the next question. */
  function WordsToAsk(trace: seq<Query>, target: nat): nat {
    if trace == [] then Max(target, 1) else NextWords(target, trace[|trace| - 1].words, trace[|trace| - 1].counted)
  }

  /** What a finished sizing promises: at most eight questions, each steered by
      the previous answer, asked while there was something to gain, and a
      verdict on the first closest of them. */
  ghost predicate Sized(trace: seq<Query>, target: nat, count: Tokenizer, r: Result<SizedPrompt, BenchError>) {
    && |trace| <= SIZING_ROUNDS
    && Steered(trace, target, count)
    && KeptGoing(trace, target)
    && match r
       case Ok(sized) =>
         && (|trace| == SIZING_ROUNDS || NothingToGain(trace, target))
         && Within(sized.tokens, target, 0.2)
         && exists k: nat :: FirstClosest(trace, target, k) && sized == SizedPrompt(trace[k].text, trace[k].counted)
       case Err(PromptSize(requested, achieved)) =>
         && (|trace| == SIZING_ROUNDS || NothingToGain(trace, target))
         && requested == target && !Within(achieved, target, 0.2)
         && exists k: nat :: FirstClosest(trace, target, k) && achieved == trace[k].counted
       case Err(EngineFailed) =>
         |trace| < SIZING_ROUNDS && count(|trace|, Prompt(WordsToAsk(trace, target))).None?
       case Err(NothingMeasured) => false
  }

  lemma AskOnce(trace: seq<Query>, target: nat, count: Tokenizer, q: Query)
    requires Steered(trace, target, count) && KeptGoing(trace, target)
    requires trace != [] ==> !NothingToGain(trace, target)
    requires q.words == WordsToAsk(trace, target) && 1 <= q.words <= Ceiling(target)
    requires q.text == Prompt(q.words) && count(|trace|, q.text) == Some(q.counted)
    ensures Steered(trace + [q], target, count) && KeptGoing(trace + [q], target)
  {
    hide NothingToGain;
    hide NextWords;
    hide Prompt;
    var longer := trace + [q];
    forall k | 0 < k < |longer| ensures !NothingToGain(longer[..k], target) {
      if k < |trace| {
        assert longer[..k] == trace[..k];
      } else {
        assert longer[..k] == trace;
      }
    }
  }

  lemma CloserReplaces(trace: seq<Query>, target: nat, at: nat, q: Query)
    requires trace != [] ==> FirstClosest(trace, target, at)
    ensures var closer := trace == [] || Distance(q.counted, target) < Distance(trace[at].counted, target);
            FirstClosest(trace + [q], target, if closer then |trace| else at)
  {
    hide Distance;
  }

  method Size(target: nat, count: Tokenizer) returns (r: Result<SizedPrompt, BenchError>)
    ensures exists trace :: Sized(trace, target, count, r)
  {
    hide NextWords;
    hide Within;
    hide Prompt;
    hide Steered;
    hide KeptGoing;
    hide FirstClosest;
    var ceiling := Ceiling(target);
    var words := Min(Max(target, 1), ceiling);
    var best: Option<(nat, string)> := None;
    var previous: Option<nat> := None;
    ghost var trace: seq<Query> := [];
    EmptyTrace(target, count);
    ghost var at := 0;
    var round := 0;
    while round < SIZING_ROUNDS
      invariant 0 <= round <= SIZING_ROUNDS && |trace| == round
      invariant 1 <= words <= ceiling && words == WordsToAsk(trace, target)
      invariant Steered(trace, target, count) && KeptGoing(trace, target)
      invariant trace != [] ==> !NothingToGain(trace, target)
      invariant previous == if trace == [] then None else Some(trace[round - 1].counted)
      invariant best.Some? <==> trace != []
      invariant best.Some? ==> FirstClosest(trace, target, at) && at < |trace|
      invariant best.Some? ==> best.value == (trace[at].counted, trace[at].text)
      decreases SIZING_ROUNDS - round
    {
      var prompt := Prompt(words);
      var answer := count(round, prompt);
      if answer.None? {
        r := Err(EngineFailed);
        assert Sized(trace, target, count, r);
        return;
      }
      var counted := answer.value;
      ghost var q := Query(words, prompt, counted);
      AskOnce(trace, target, count, q);
      CloserReplaces(trace, target, at, q);
      if best.None? || Distance(counted, target) < Distance(best.value.0, target) {
        best := Some((counted, prompt));
        at := round;
      }
      trace := trace + [q];
      round := round + 1;
      if Within(counted, target, SIZING_TOLERANCE) {
        break;
      }
      if previous == Some(counted) {
        break;
      }
      previous := Some(counted);
      var next := NextWords(target, words, counted);
      NextWordsInRange(target, words, counted);
      if next == words {
        break;
      }
      words := next;
    }
    var (counted, text) := best.value;
    if Within(counted, target, 0.2) {
      r := Ok(SizedPrompt(text, counted));
      assert r.value == SizedPrompt(trace[at].text, trace[at].counted);
      assert Sized(trace, target, count, r);
    } else {
      r := Err(PromptSize(target, counted));
      assert r.error.achieved == trace[at].counted;
      assert Sized(trace, target, count, r);
    }
  }

  lemma EmptyTrace(target: nat, count: Tokenizer)
    ensures Steered([], target, count) && KeptGoing([], target)
  {
  }

  lemma NextWordsInRange(target: nat, words: nat, counted: nat)
    ensures 1 <= NextWords(target, words, counted) <= Ceiling(target)
  {
  }

  lemma NextWordsBounds(target: nat, words: nat, counted: nat, scaled: real)
    requires scaled == words as real * (target as real / (Max(counted, 1) as real))
    ensures var next := NextWords(target, words, counted);
            && 1 <= next <= Ceiling(target)
            && (next < Ceiling(target) ==> next as real >= scaled - 0.5)
            && (1 < next ==> next as real <= scaled + 0.5)
  {
    var rounded := (scaled + 0.5).Floor;
    assert rounded as real <= scaled + 0.5 < rounded as real + 1.0;
    assert NextWords(target, words, counted) == Min(Max(rounded, 1), Ceiling(target));
  }

  /** Multiplication under a name, so that the solver does not open every product. */
  function Product(a: real, b: real): real { a * b }

  /** The next word count is a nearest whole number to the last one scaled by target
      over count, kept between 1 and the ceiling. */
  lemma NextWordsIsNearest(target: nat, words: nat, counted: nat)
    ensures var c, next := if counted == 0 then 1 else counted, NextWords(target, words, counted);
            var most := if 4 * target < 16 then 16 else 4 * target;
            && 1 <= next <= most
            && (next < most ==> 2 * (words * target) <= 2 * (next * c) + c)
            && (1 < next ==> 2 * (next * c) <= 2 * (words * target) + c)
  {
    var c, next := Max(counted, 1), NextWords(target, words, counted);
    var scaled := words as real * (target as real / (c as real));
    NextWordsBounds(target, words, counted, scaled);
    hide NextWords;
    Rescaled(words, target, c, scaled);
    hide Product;
    WholeProduct(next, c);
    WholeProduct(words, target);
    if next < Ceiling(target) {
      AtLeast(next as real, scaled, c as real);
      Doubled(words * target, next * c, c);
    }
    if 1 < next {
      AtLeast(scaled, next as real, c as real);
      Doubled(next * c, words * target, c);
    }
  }

  lemma Doubled(p: int, q: int, c: int)
    requires q as real >= p as real - 0.5 * (c as real)
    ensures 2 * p <= 2 * q + c
  {
  }

  lemma Rescaled(words: nat, target: nat, c: nat, scaled: real)
    requires c > 0 && scaled == words as real * (target as real / (c as real))
    ensures Product(scaled, c as real) == Product(words as real, target as real)
  {
    var w, t, d := words as real, target as real, c as real;
    assert (t / d) * d == t;
    assert (w * (t / d)) * d == w * ((t / d) * d);
  }

  lemma NonNegative(x: real, c: real)
    requires x >= 0.0 && c > 0.0
    ensures x * c >= 0.0
  {
  }

  lemma AtLeast(a: real, b: real, c: real)
    requires a >= b - 0.5 && c > 0.0
    ensures Product(a, c) >= Product(b, c) - 0.5 * c
  {
    NonNegative(a - b + 0.5, c);
    assert (a - b + 0.5) * c == a * c - b * c + 0.5 * c;
  }

  lemma WholeProduct(a: nat, b: nat)
    ensures Product(a as real, b as real) == (a * b) as real
  {
  }

  lemma {:induction false} RepeatAt(s: string, n: nat, j: nat, r: nat)
    requires j < n && r < |s|
    ensures 0 <= j * |s| + r < |Repeat(s, n)| && Repeat(s, n)[j * |s| + r] == s[r]
  {
    assert n * |s| == (n - 1) * |s| + |s|;
    if j == 0 {
      assert Repeat(s, n)[r] == s[r];
    } else {
      RepeatAt(s, n - 1, j - 1, r);
      assert j * |s| + r == |s| + ((j - 1) * |s| + r);
      assert Repeat(s, n)[|s| + ((j - 1) * |s| + r)] == Repeat(s, n - 1)[(j - 1) * |s| + r];
    }
  }

  /** A prompt of so many words is the nine-word filler said one more time than nines
      go into them. */
  lemma PromptIsTheFiller(words: nat, j: nat, r: nat)
    requires j <= words / 9 && r < |FILLER|
    ensures FILLER == "the quick brown fox jumps over the lazy dog "
    ensures |Prompt(words)| == (words / 9 + 1) * |FILLER|
    ensures 0 <= j * |FILLER| + r < |Prompt(words)| && Prompt(words)[j * |FILLER| + r] == FILLER[r]
  {
    assert Max(words, 1) / 9 == words / 9;
    RepeatAt(FILLER, words / 9 + 1, j, r);
  }

  /** What a finished sizing means in numbers: at most eight questions of at most
      `max(4 * target, 16)` words; a text is accepted exactly when its count is within
      a fifth of the target; and the loop stops short of eight only within a
      twentieth, on a count it has just heard, or with the same words to ask again. */
  lemma SizedMeans(trace: seq<Query>, target: nat, count: Tokenizer, r: Result<SizedPrompt, BenchError>)
    requires Sized(trace, target, count, r)
    ensures |trace| <= 8
    ensures forall k :: 0 <= k < |trace| ==> 1 <= trace[k].words <= if 4 * target < 16 then 16 else 4 * target
    ensures r.Ok? ==> 5 * Gap(r.value.tokens, target) <= if target == 0 then 1 else target
    ensures r.Err? && r.error.PromptSize? ==>
              r.error.requested == target && 5 * Gap(r.error.achieved, target) > if target == 0 then 1 else target
    ensures (r.Ok? || r.error.PromptSize?) && |trace| < 8 ==>
              && |trace| > 0
              && var last := trace[|trace| - 1];
                 || 20 * Gap(last.counted, target) <= (if target == 0 then 1 else target)
                 || (|trace| > 1 && trace[|trace| - 2].counted == last.counted)
                 || NextWords(target, last.words, last.counted) == last.words
  {
    hide NextWords;
    hide FirstClosest;
    hide KeptGoing;
    hide Prompt;
    if r.Ok? {
      ShareOf(r.value.tokens, target);
    } else if r.error.PromptSize? {
      ShareOf(r.error.achieved, target);
    }
    if |trace| > 0 {
      ShareOf(trace[|trace| - 1].counted, target);
    }
    hide Within;
  }

  function Gap(a: int, b: int): int { if a <= b then b - a else a - b }

  lemma ShareOf(counted: nat, target: nat)
    ensures Within(counted, target, 0.2) <==> 5 * Gap(counted, target) <= if target == 0 then 1 else target
    ensures Within(counted, target, 0.05) <==> 20 * Gap(counted, target) <= if target == 0 then 1 else target
  {
    var d, m := Distance(counted, target) as real, Max(target, 1) as real;
    QuotientBelow(d, m, 0.2);
    QuotientBelow(d, m, 0.05);
  }

  lemma QuotientBelow(d: real, m: real, bound: real)
    requires m > 0.0
    ensures d / m <= bound <==> d <= bound * m
  {
    assert (d / m) * m == d;
    if d / m <= bound {
      assert (bound - d / m) * m >= 0.0;
    } else {
      assert (d / m - bound) * m > 0.0;
    }
  }

  /** No prompt ever built is longer than the ceiling allows, so a tokenizer
      that ignores length cannot make the loop grow without bound. */
  lemma PromptsAreBounded(trace: seq<Query>, target: nat, count: Tokenizer, k: nat)
    requires Steered(trace, target, count) && k < |trace|
    ensures |trace[k].text| <= (Ceiling(target) / 9 + 1) * |FILLER|
  {
    assert trace[k].words / 9 <= Ceiling(target) / 9;
    var n, m := Max(trace[k].words, 1) / 9 + 1, Ceiling(target) / 9 + 1;
    assert n <= m;
    LongerRepeat(n, m);
  }

  lemma LongerRepeat(n: nat, m: nat)
    requires n <= m
    ensures |Repeat(FILLER, n)| <= m * |FILLER|
  {
    assert n * |FILLER| <= m * |FILLER|;
  }
}
