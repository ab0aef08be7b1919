/**
 * The decision logic of the impl workflow's kernels
 * (`python/agentize/workflow/impl/kernels.py`): the placeholder stage
 * kernels and their table, the review score parser and the review verdict,
 * the prompt sections, the "Closes #N" line of the finalize file and the
 * error mapping of the simplification kernel.
 *
 * Prompt runs, git commands and file reads are inputs: a review run is
 * given as its outcome, a file as its text.
 */
module ImplKernels {
  import opened Wrappers
  import opened Text

  // ---------------------------------------------------------------------
  // Stages, placeholder kernels and KERNELS
  // ---------------------------------------------------------------------

  /** The workflow stages; `StageFinish` is the terminal one, which has no kernel. */
  datatype Stage = StageImpl | StageReview | StagePr | StageRebase | StageFinish

  /** The text a stage renders as. The constants are defined outside the kernels file. */
  function StageName(stage: Stage): string {
    match stage
    case StageImpl => "impl"
    case StageReview => "review"
    case StagePr => "pr"
    case StageRebase => "rebase"
    case StageFinish => "finish"
  }

  /** The stage events used here; their constants are defined outside the kernels file. */
  datatype Event = EventFatal | EventPrPass | EventRebaseOk

  datatype StageResult = StageResult(event: Event, reason: string)

  /** The kernels of the workflow table. */
  datatype Kernel = ImplStageKernel | ReviewStageKernel | PrStageKernel | RebaseStageKernel

  /** `_unconfigured_kernel`: a fatal result whose reason names the stage. */
  function UnconfiguredKernel(stage: Stage): (r: StageResult)
    ensures r.event == EventFatal
    ensures Contains(r.reason, StageName(stage))
  {
    var prefix := "Kernel not configured for stage: ";
    var reason := prefix + StageName(stage);
    assert OccursAt(reason, StageName(stage), |prefix|) by {
      assert reason[|prefix|..|prefix| + |StageName(stage)|] == StageName(stage);
    }
    StageResult(EventFatal, reason)
  }

  /** The stage each placeholder kernel stands for. */
  function KernelStage(k: Kernel): Stage {
    match k
    case ImplStageKernel => StageImpl
    case ReviewStageKernel => StageReview
    case PrStageKernel => StagePr
    case RebaseStageKernel => StageRebase
  }

  /** Running a placeholder kernel; the context is not consulted. */
  function RunKernel(k: Kernel): StageResult {
    UnconfiguredKernel(KernelStage(k))
  }

  const Kernels: map<Stage, Kernel> :=
    map[StageImpl := ImplStageKernel, StageReview := ReviewStageKernel, StagePr := PrStageKernel, StageRebase := RebaseStageKernel]

  /** KERNELS maps exactly the four working stages, each to a kernel that fails naming that stage. */
  lemma KernelsTable()
    ensures Kernels.Keys == {StageImpl, StageReview, StagePr, StageRebase}
    ensures StageFinish !in Kernels
    ensures forall s :: s in Kernels ==> RunKernel(Kernels[s]).event == EventFatal && Contains(RunKernel(Kernels[s]).reason, StageName(s))
  {
    forall s | s in Kernels
      ensures RunKernel(Kernels[s]).event == EventFatal && Contains(RunKernel(Kernels[s]).reason, StageName(s))
    {
      var k := Kernels[s];
      assert KernelStage(k) == s;
      var r := UnconfiguredKernel(s);
      assert RunKernel(k) == r;
    }
  }

  // ---------------------------------------------------------------------
  // _parse_quality_score
  // ---------------------------------------------------------------------

  /** A word whose first letter may be upper or lower case, as `[Ss]core`. */
  datatype Keyword = Keyword(upper: char, lower: char, rest: string)

  const ScoreWord := Keyword('S', 's', "core")
  const QualityWord := Keyword('Q', 'q', "uality")
  const RatingWord := Keyword('R', 'r', "ating")
  const FeedbackWord := Keyword('F', 'f', "eedback")

  predicate KeywordAt(s: string, p: nat, w: Keyword) {
    p + 1 + |w.rest| <= |s| && (s[p] == w.upper || s[p] == w.lower) && s[p + 1..p + 1 + |w.rest|] == w.rest
  }

  /** A signed run of digits: its sign, its value and the index after it. */
  datatype Number = Number(negative: bool, magnitude: nat, end: nat)

  /** The integer a signed digit run denotes, as `int(group)` reads it. */
  function NumberValue(n: Number): int {
    if n.negative then 0 - n.magnitude as int else n.magnitude as int
  }

  /**
   * `<keyword>[:\s]+(-?\d+)` at `p`. Neither a separator nor a sign is a
   * digit, so the greedy runs are the only way the pattern can match.
   */
  function NumberAfter(s: string, p: nat, w: Keyword): (r: Option<Number>)
    requires KeywordAt(s, p, w)
    ensures r.Some? ==> r.value.end <= |s|
  {
    var j := p + 1 + |w.rest|;
    var sep := RunFrom(s, j, ColonOrPySpace);
    var k := j + sep;
    var negative := k < |s| && s[k] == '-';
    var d := if negative then k + 1 else k;
    var n := RunFrom(s, d, Digit);
    if sep == 0 || n == 0 then None
    else
      Some(Number(negative, RunValue(s, d, d + n), d + n))
  }

  datatype Pattern = ScorePattern | QualityPattern | RatingPattern

  function WordOf(pat: Pattern): Keyword {
    match pat
    case ScorePattern => ScoreWord
    case QualityPattern => QualityWord
    case RatingPattern => RatingWord
  }

  /**
   * A match of one of the three patterns starting at `p`, with the value
   * its branch clamps: `[Ss]core[:\s]+(-?\d+)/100` gives the number;
   * `[Qq]uality[:\s]+(-?\d+)(?:/100)?` gives the number (the optional tail
   * never decides a match); `[Rr]ating[:\s]+(-?\d+\.?\d*)/10` gives ten
   * times the decimal, truncated toward zero.
   */
  function MatchAt(s: string, p: nat, pat: Pattern): Option<int> {
    if !KeywordAt(s, p, WordOf(pat)) then None
    else match NumberAfter(s, p, WordOf(pat))
      case None => None
      case Some(num) =>
        match pat
        case ScorePattern => if OccursAt(s, "/100", num.end) then Some(NumberValue(num)) else None
        case QualityPattern => Some(NumberValue(num))
        case RatingPattern =>
          var dot := num.end < |s| && s[num.end] == '.';
          var frac := if dot then RunFrom(s, num.end + 1, Digit) else 0;
          var stop := if dot then num.end + 1 + frac else num.end;
          var tenths := 10 * num.magnitude + (if frac > 0 then DigitValue(s[num.end + 1]) else 0);
          if OccursAt(s, "/10", stop) then Some(if num.negative then 0 - tenths else tenths) else None
  }

  /** The match of `pat` at each position of `s`. */
  function Matches(s: string, pat: Pattern): (ms: seq<Option<int>>)
    ensures |ms| == |s|
  {
    seq(|s|, q requires 0 <= q < |s| => MatchAt(s, q, pat))
  }

  /** `re.search`: the match that starts leftmost at or after `from`. */
  function FirstMatch(s: string, from: nat, pat: Pattern): Option<int> {
    FirstSome(Matches(s, pat), from)
  }

  /** The search finds nothing exactly when no position at or after `from` matches. */
  lemma FirstMatchNone(s: string, from: nat, pat: Pattern)
    ensures FirstMatch(s, from, pat).None? <==> forall p :: from <= p < |s| ==> MatchAt(s, p, pat).None?
  {
    var ms := Matches(s, pat);
    FirstSomeSpec(ms, from);
    assert forall p :: from <= p < |s| ==> ms[p] == MatchAt(s, p, pat);
  }

  /** `min(100, max(0, v))`. */
  function Clamp(v: int): (r: int)
    ensures 0 <= r <= 100
    ensures 0 <= v <= 100 ==> r == v
    ensures v < 0 ==> r == 0
    ensures v > 100 ==> r == 100
  {
    if v < 0 then 0 else if v > 100 then 100 else v
  }

  /**
   * `_parse_quality_score`: the Score pattern wherever it is, else the
   * Quality pattern, else the Rating pattern, clamped to [0, 100]; 50 when
   * none matches.
   */
  function ParseQualityScore(output: string): (r: int)
    ensures 0 <= r <= 100
  {
    match FirstMatch(output, 0, ScorePattern)
    case Some(v) => Clamp(v)
    case None =>
      match FirstMatch(output, 0, QualityPattern)
      case Some(v) => Clamp(v)
      case None =>
        match FirstMatch(output, 0, RatingPattern)
        case Some(v) => Clamp(v)
        case None => 50
  }

  /** Text in which none of the three keywords occurs scores the neutral 50. */
  lemma NoPatternNeutral(output: string)
    requires forall p :: 0 <= p < |output| ==> output[p] !in "SsQqRr"
    ensures ParseQualityScore(output) == 50
  {
    forall p, pat | 0 <= p < |output|
      ensures MatchAt(output, p, pat).None?
    {
      assert output[p] !in "SsQqRr";
    }
    FirstMatchNone(output, 0, ScorePattern);
    FirstMatchNone(output, 0, QualityPattern);
    FirstMatchNone(output, 0, RatingPattern);
  }

  /** Positions without a match do not change where the search ends up. */
  lemma SkipNoMatch(s: string, from: nat, to: nat, pat: Pattern)
    requires from <= to <= |s|
    requires forall p :: from <= p < to ==> MatchAt(s, p, pat).None?
    ensures FirstMatch(s, from, pat) == FirstMatch(s, to, pat)
  {
    var ms := Matches(s, pat);
    forall j | from <= j < to && j < |ms| ensures ms[j].None? {
      assert ms[j] == MatchAt(s, j, pat);
    }
    FirstSomeSkip(ms, from, to);
  }

  /** A position whose character cannot start the keyword has no match. */
  lemma NotKeywordStart(s: string, p: nat, pat: Pattern)
    requires p < |s| && s[p] != WordOf(pat).upper && s[p] != WordOf(pat).lower
    ensures MatchAt(s, p, pat).None?
  {
  }

  function Magnitude(n: int): nat {
    if n < 0 then -n else n
  }

  /** Digits from `d` up to `e`, then a non-digit or the end of the text. */
  predicate DigitRun(s: string, d: nat, e: nat) {
    d < e <= |s| && (forall i :: d <= i < e ==> IsDigit(s[i])) && (e == |s| || !IsDigit(s[e]))
  }

  /** A number written at `k`: a '-' exactly when negative, then a digit run from `d` to `e`. */
  predicate NumberWritten(s: string, k: nat, negative: bool, d: nat, e: nat) {
    DigitRun(s, d, e) && (if negative then d == k + 1 && s[k] == '-' else d == k)
  }

  /** `NumberAfter` in terms of the length `sep` of its separator run and its digit run from `d` to `e`. */
  lemma NumberAfterRuns(s: string, p: nat, w: Keyword, sep: nat, negative: bool, d: nat, e: nat)
    requires KeywordAt(s, p, w) && sep > 0 && d < e
    requires RunFrom(s, p + 1 + |w.rest|, ColonOrPySpace) == sep
    requires negative == (p + 1 + |w.rest| + sep < |s| && s[p + 1 + |w.rest| + sep] == '-')
    requires d == (if negative then p + 1 + |w.rest| + sep + 1 else p + 1 + |w.rest| + sep)
    requires d <= |s| && RunFrom(s, d, Digit) == e - d
    ensures NumberAfter(s, p, w) == Some(Number(negative, RunValue(s, d, e), e))
  {
  }

  /** A number written after a keyword and a non-empty separator run is read back exactly. */
  lemma NumberAfterKeyword(s: string, p: nat, w: Keyword, k: nat, negative: bool, d: nat, e: nat)
    requires KeywordAt(s, p, w) && p + 1 + |w.rest| < k
    requires NumberWritten(s, k, negative, d, e)
    requires forall i :: p + 1 + |w.rest| <= i < k ==> InClass(s[i], ColonOrPySpace)
    ensures NumberAfter(s, p, w) == Some(Number(negative, RunValue(s, d, e), e))
  {
    var j := p + 1 + |w.rest|;
    SeparatorRun(s, j, k, negative, d, e);
    DigitRunLength(s, d, e);
    NumberAfterRuns(s, p, w, k - j, negative, d, e);
  }

  /** The separator run from `j` ends where the number written at `k` starts. */
  lemma SeparatorRun(s: string, j: nat, k: nat, negative: bool, d: nat, e: nat)
    requires j < k && NumberWritten(s, k, negative, d, e)
    requires forall i :: j <= i < k ==> InClass(s[i], ColonOrPySpace)
    ensures RunFrom(s, j, ColonOrPySpace) == k - j
  {
    assert !InClass(s[k], ColonOrPySpace) by {
      assert s[k] == '-' || IsDigit(s[k]);
    }
    RunFromExact(s, j, ColonOrPySpace, k - j);
  }

  /** The digit run from `d` is `e - d` long. */
  lemma DigitRunLength(s: string, d: nat, e: nat)
    requires DigitRun(s, d, e)
    ensures RunFrom(s, d, Digit) == e - d
  {
    assert forall i :: d <= i < e ==> InClass(s[i], Digit);
    RunFromExact(s, d, Digit, e - d);
  }

  /** `str(n)` is a number written at 0 whose digits read back as the magnitude of `n`. */
  lemma DecimalWritten(n: int)
    ensures NumberWritten(IntToDecimal(n), 0, n < 0, if n < 0 then 1 else 0, |IntToDecimal(n)|)
    ensures RunValue(IntToDecimal(n), if n < 0 then 1 else 0, |IntToDecimal(n)|) == Magnitude(n)
  {
    var r := IntToDecimal(n);
    var digits := NatToDecimal(Magnitude(n));
    var d := if n < 0 then 1 else 0;
    assert r[d..|r|] == digits;
    forall i | d <= i < |r| ensures IsDigit(r[i]) {
      assert r[i] == digits[i - d];
    }
    RunValueIsDigitsValue(r, d, |r|);
    NatDecimalRoundTrip(Magnitude(n));
  }

  /** A number written at the start of `t` keeps its reading when `t` is copied into `s` at `c` before a non-digit. */
  lemma EmbeddedNumber(s: string, t: string, c: nat, negative: bool, d: nat)
    requires NumberWritten(t, 0, negative, d, |t|)
    requires c + |t| <= |s| && forall i :: 0 <= i < |t| ==> s[c + i] == t[i]
    requires c + |t| == |s| || !IsDigit(s[c + |t|])
    ensures NumberWritten(s, c, negative, c + d, c + |t|)
    ensures RunValue(s, c + d, c + |t|) == RunValue(t, d, |t|)
  {
    forall i | c + d <= i < c + |t| ensures IsDigit(s[i]) {
      assert s[i] == t[i - c];
    }
    assert negative ==> s[c] == t[0];
    RunValueShift(s, t, c, d, |t|);
  }

  /** Positions whose character cannot start the keyword do not change where the search ends up. */
  lemma PlainPrefix(s: string, p: nat, pat: Pattern)
    requires p <= |s|
    requires forall q :: 0 <= q < p ==> s[q] != WordOf(pat).upper && s[q] != WordOf(pat).lower
    ensures FirstMatch(s, 0, pat) == FirstMatch(s, p, pat)
  {
    forall q | 0 <= q < p ensures MatchAt(s, q, pat).None? {
      NotKeywordStart(s, q, pat);
    }
    SkipNoMatch(s, 0, p, pat);
  }

  /** "Score: " and a number followed by "/100" at `p` is a Score match of that number. */
  lemma ScoreMatchAt(s: string, p: nat, negative: bool, d: nat, e: nat)
    requires KeywordAt(s, p, ScoreWord) && p + 7 <= |s| && s[p + 5] == ':' && s[p + 6] == ' '
    requires NumberWritten(s, p + 7, negative, d, e) && OccursAt(s, "/100", e)
    ensures MatchAt(s, p, ScorePattern) == Some(NumberValue(Number(negative, RunValue(s, d, e), 0)))
  {
    assert InClass(s[p + 5], ColonOrPySpace) && InClass(s[p + 6], ColonOrPySpace);
    NumberAfterKeyword(s, p, ScoreWord, p + 7, negative, d, e);
  }

  /** Where "Score: N/100" sits in a text: the keyword at `p`, the digits of `n` copied from `p + 7`, "/100" after them. */
  predicate ScoreLaidOut(s: string, p: nat, n: int) {
    && KeywordAt(s, p, ScoreWord) && p + 7 <= |s| && s[p + 5] == ':' && s[p + 6] == ' '
    && p + 7 + |IntToDecimal(n)| <= |s|
    && (forall i :: 0 <= i < |IntToDecimal(n)| ==> s[p + 7 + i] == IntToDecimal(n)[i])
    && OccursAt(s, "/100", p + 7 + |IntToDecimal(n)|)
  }

  /** "Score: N/100" after text without 'S' or 's' is laid out right after that text. */
  lemma ScoreLayout(pre: string, n: int)
    requires forall k :: 0 <= k < |pre| ==> pre[k] != 'S' && pre[k] != 's'
    ensures ScoreLaidOut(pre + "Score: " + IntToDecimal(n) + "/100", |pre|, n)
    ensures forall q :: 0 <= q < |pre| ==> (pre + "Score: " + IntToDecimal(n) + "/100")[q] != 'S'
    ensures forall q :: 0 <= q < |pre| ==> (pre + "Score: " + IntToDecimal(n) + "/100")[q] != 's'
  {
    var dec := IntToDecimal(n);
    var s := pre + "Score: " + dec + "/100";
    var p := |pre|;
    forall q | 0 <= q < p ensures s[q] == pre[q] { }
    assert s[p..p + 5] == "Score";
    assert s[p + 5] == ':' && s[p + 6] == ' ';
    assert s[p + 7 + |dec|..p + 7 + |dec| + 4] == "/100";
  }

  /** A laid-out score is the number `n` written at `p + 7`, with "/100" after it. */
  lemma LaidOutNumber(s: string, p: nat, n: int)
    requires ScoreLaidOut(s, p, n)
    ensures NumberWritten(s, p + 7, n < 0, p + 7 + (if n < 0 then 1 else 0), p + 7 + |IntToDecimal(n)|)
    ensures RunValue(s, p + 7 + (if n < 0 then 1 else 0), p + 7 + |IntToDecimal(n)|) == Magnitude(n)
    ensures OccursAt(s, "/100", p + 7 + |IntToDecimal(n)|)
  {
    var t := IntToDecimal(n);
    var e := p + 7 + |t|;
    assert s[e] == s[e..e + 4][0] == '/';
    DecimalWritten(n);
    EmbeddedNumber(s, t, p + 7, n < 0, if n < 0 then 1 else 0);
  }

  /** A laid-out score with no 'S' or 's' before it is what the Score search finds. */
  lemma ScoreFound(s: string, p: nat, n: int)
    requires ScoreLaidOut(s, p, n)
    requires forall q :: 0 <= q < p ==> s[q] != 'S' && s[q] != 's'
    ensures FirstMatch(s, 0, ScorePattern) == Some(n)
  {
    PlainPrefix(s, p, ScorePattern);
    LaidOutMatch(s, p, n);
  }

  /** A laid-out score is a Score match of `n` at its keyword. */
  lemma LaidOutMatch(s: string, p: nat, n: int)
    requires ScoreLaidOut(s, p, n)
    ensures MatchAt(s, p, ScorePattern) == Some(n)
  {
    var e := p + 7 + |IntToDecimal(n)|;
    var d := p + 7 + (if n < 0 then 1 else 0);
    LaidOutNumber(s, p, n);
    ScoreMatchAt(s, p, n < 0, d, e);
    SignedMagnitude(n);
  }

  /** An integer is its sign and its magnitude. */
  lemma SignedMagnitude(n: int)
    ensures NumberValue(Number(n < 0, Magnitude(n), 0)) == n
  {
  }

  /** "Score: N/100" after text without 'S' or 's' scores N, clamped. */
  lemma ScoreAfterPlainText(pre: string, n: int)
    requires forall k :: 0 <= k < |pre| ==> pre[k] != 'S' && pre[k] != 's'
    ensures FirstMatch(pre + "Score: " + IntToDecimal(n) + "/100", 0, ScorePattern) == Some(n)
    ensures ParseQualityScore(pre + "Score: " + IntToDecimal(n) + "/100") == Clamp(n)
  {
    ScoreLayout(pre, n);
    ScoreFound(pre + "Score: " + IntToDecimal(n) + "/100", |pre|, n);
  }

  /** "Overall Score: 72/100" gives 72. */
  lemma OverallScore(n: int)
    ensures ParseQualityScore("Overall Score: " + IntToDecimal(n) + "/100") == Clamp(n)
  {
    ScoreAfterPlainText("Overall ", n);
    assert "Overall " + "Score: " == "Overall Score: ";
  }

  /** Text without 'S' or 's' has no Score match. */
  lemma NoScore(s: string)
    requires forall k :: 0 <= k < |s| ==> s[k] != 'S' && s[k] != 's'
    ensures FirstMatch(s, 0, ScorePattern).None?
  {
    PlainPrefix(s, |s|, ScorePattern);
  }

  /** "Quality: " and a number at `p` is a Quality match of that number. */
  lemma QualityMatchAt(s: string, p: nat, negative: bool, d: nat, e: nat)
    requires KeywordAt(s, p, QualityWord) && p + 9 <= |s| && s[p + 7] == ':' && s[p + 8] == ' '
    requires NumberWritten(s, p + 9, negative, d, e)
    ensures MatchAt(s, p, QualityPattern) == Some(NumberValue(Number(negative, RunValue(s, d, e), 0)))
  {
    assert InClass(s[p + 7], ColonOrPySpace) && InClass(s[p + 8], ColonOrPySpace);
    NumberAfterKeyword(s, p, QualityWord, p + 9, negative, d, e);
  }

  /** "Quality: N" gives N, clamped. */
  lemma QualityLine(n: int)
    ensures ParseQualityScore("Quality: " + IntToDecimal(n)) == Clamp(n)
  {
    var dec := IntToDecimal(n);
    var s := "Quality: " + dec;
    var d := if n < 0 then 1 else 0;
    forall k | 0 <= k < |s| ensures s[k] != 'S' && s[k] != 's' {
      if k >= 9 { assert s[k] == dec[k - 9]; }
    }
    NoScore(s);
    assert s[1..7] == "uality";
    assert s[7] == ':' && s[8] == ' ';
    DecimalWritten(n);
    EmbeddedNumber(s, dec, 9, n < 0, d);
    QualityMatchAt(s, 0, n < 0, 9 + d, |s|);
  }

  /** The Score pattern is tried first, wherever it is: a Quality line before it does not count. */
  lemma ScoreBeatsEarlierQuality(m: int, n: int)
    ensures ParseQualityScore("Quality: " + IntToDecimal(m) + "\n" + "Score: " + IntToDecimal(n) + "/100") == Clamp(n)
  {
    var pre := "Quality: " + IntToDecimal(m) + "\n";
    forall k | 0 <= k < |pre| ensures pre[k] != 'S' && pre[k] != 's' {
      if 9 <= k < |pre| - 1 { assert pre[k] == IntToDecimal(m)[k - 9]; }
    }
    ScoreAfterPlainText(pre, n);
  }

  // ---------------------------------------------------------------------
  // review_kernel
  // ---------------------------------------------------------------------

  /** The review prompt run: it raised a pipeline error, or it ran and may have left an output file. */
  datatype ReviewRun = RunRaised(error: string) | RunDone(outputExists: bool, text: string)

  datatype Review = Review(passed: bool, feedback: string, score: int)

  const DefaultThreshold := 70

  /**
   * `[Ff]eedback:?(.*?)(?:\n\n|\Z)` with DOTALL: the text from after the
   * leftmost keyword (and its colon) up to the first blank line or the end,
   * stripped; the whole text when there is no keyword.
   */
  function FeedbackFrom(text: string, from: nat): string
    requires from <= |text|
    decreases |text| - from
  {
    if from == |text| then text
    else if KeywordAt(text, from, FeedbackWord) then
      var g0 := from + 8;
      var g := if g0 < |text| && text[g0] == ':' then g0 + 1 else g0;
      var stop := match FindFrom(text, "\n\n", g) case Some(k) => k case None => |text|;
      PyStrip(text[g..stop])
    else FeedbackFrom(text, from + 1)
  }

  /**
   * The verdict of `review_kernel`: without an implementation output, a
   * failure with score 0; on a pipeline error, a pass with score 75;
   * otherwise the parsed score, passing exactly when it reaches the
   * threshold.
   */
  function ReviewKernel(outputExists: bool, run: ReviewRun, threshold: int): (r: Review)
    ensures !outputExists ==> r == Review(false, "No implementation output found to review", 0)
    ensures outputExists && run.RunRaised? ==> r.passed && r.score == 75
    ensures outputExists && run.RunDone? ==> 0 <= r.score <= 100 && (r.passed <==> r.score >= threshold)
  {
    if !outputExists then Review(false, "No implementation output found to review", 0)
    else match run
      case RunRaised(error) => Review(true, "Review pipeline error (assuming pass): " + error, 75)
      case RunDone(present, text) =>
        var reviewText := if present then text else "";
        var score := ParseQualityScore(reviewText);
        Review(score >= threshold, FeedbackFrom(reviewText, 0), score)
  }

  /** Without an implementation output the prompt's outcome plays no part: it is never run. */
  lemma NoOutputNoPrompt(run1: ReviewRun, run2: ReviewRun, threshold: int)
    ensures ReviewKernel(false, run1, threshold) == ReviewKernel(false, run2, threshold)
  {
  }

  /** With the default threshold a review scoring 69 fails and one scoring 70 passes. */
  lemma ThresholdBoundary()
    ensures !ReviewKernel(true, RunDone(true, "Score: " + IntToDecimal(69) + "/100"), DefaultThreshold).passed
    ensures ReviewKernel(true, RunDone(true, "Score: " + IntToDecimal(70) + "/100"), DefaultThreshold).passed
  {
    ScoreAfterPlainText("", 69);
    ScoreAfterPlainText("", 70);
    assert "" + "Score: " == "Score: ";
  }

  /** A review output without a file reads as empty text, which scores the neutral 50. */
  lemma MissingReviewFile(text: string, threshold: int)
    ensures ReviewKernel(true, RunDone(false, text), threshold).score == 50
  {
    NoPatternNeutral("");
  }

  // ---------------------------------------------------------------------
  // _section and _iteration_section
  // ---------------------------------------------------------------------

  /** Trimming the end keeps everything up to a non-whitespace character. */
  lemma RStripKeeps(s: string, k: nat)
    requires k < |s| && !IsPySpace(s[k])
    ensures k < |PyRStrip(s)| && PyRStrip(s) == s[..|PyRStrip(s)|]
  {
    SpanEndChars(s, PySpace);
  }

  /**
   * `_section`: "" for missing or empty content; otherwise the block
   * headed by "\n\n---\n" and the title, ending in exactly one newline.
   */
  function Section(title: string, content: Option<string>): (r: string)
    ensures r == "" <==> content.None? || content.value == ""
    ensures r != "" ==> |r| >= 6 && r[..5] == "\n\n---" && r[|r| - 1] == '\n' && !IsPySpace(r[|r| - 2])
  {
    if content.None? || content.value == "" then ""
    else
      var block := "\n\n---\n" + title + "\n" + PyRStrip(content.value) + "\n";
      var trimmed := PyRStrip(block);
      RStripKeeps(block, 4);
      assert trimmed[..5] == block[..5];
      assert !IsPySpace(trimmed[|trimmed| - 1]);
      trimmed + "\n"
  }

  /** `_iteration_section`: "" for None, else two lines naming the iteration and its commit report. */
  function IterationSection(iteration: Option<int>): (r: string)
    ensures r == "" <==> iteration.None?
    ensures iteration.Some? ==> "Current iteration: " + IntToDecimal(iteration.value) + "\n" <= r && r[|r| - 1] == '\n'
  {
    match iteration
    case None => ""
    case Some(n) =>
      "Current iteration: " + IntToDecimal(n) + "\n"
      + "Create .tmp/commit-report-iter-" + IntToDecimal(n) + ".txt for this iteration.\n"
  }

  // ---------------------------------------------------------------------
  // _append_closes_line
  // ---------------------------------------------------------------------

  /** One character of a lower-case literal under IGNORECASE ('s' also matches the long s). */
  predicate CaselessChar(c: char, lit: char) {
    c == lit || (IsAsciiLower(lit) && c as int == lit as int - 32) || (lit == 's' && c == '\U{17f}')
  }

  /** "closes" (any case) at `p`. */
  predicate ClosesWordAt(s: string, p: nat) {
    p + 6 <= |s| && forall k :: 0 <= k < 6 ==> CaselessChar(s[p + k], "closes"[k])
  }

  /**
   * `closes\s+#\s*<N>` at `p`, case-insensitively, where <N> is the issue
   * number's decimal text. The whitespace runs are followed by '#' and by
   * a digit or '-', so only the greedy runs can match.
   */
  predicate ClosesAt(s: string, p: nat, issue: int) {
    && ClosesWordAt(s, p)
    && var sep := RunFrom(s, p + 6, PySpace);
    && sep > 0 && p + 6 + sep < |s| && s[p + 6 + sep] == '#'
    && var ws := RunFrom(s, p + 7 + sep, PySpace);
    && OccursAt(s, IntToDecimal(issue), p + 7 + sep + ws)
  }

  predicate HasClosesLine(s: string, issue: int) {
    exists p: nat :: p <= |s| && ClosesAt(s, p, issue)
  }

  /** The line `_append_closes_line` adds. */
  function ClosesLine(issue: int): string {
    "\nCloses #" + IntToDecimal(issue) + "\n"
  }

  /** The finalize text after `_append_closes_line`. */
  function WithClosesLine(content: string, issue: int): string {
    if HasClosesLine(content, issue) then content else TrimNewlines(content) + ClosesLine(issue)
  }

  /** "Closes #" at `p` followed by the issue number's text is a match for that issue, whatever follows it. */
  lemma ClosesTextMatches(s: string, p: nat, issue: int)
    requires OccursAt(s, "Closes #", p) && OccursAt(s, IntToDecimal(issue), p + 8)
    ensures HasClosesLine(s, issue)
  {
    var dec := IntToDecimal(issue);
    assert ClosesWordAt(s, p) by {
      forall k | 0 <= k < 6 ensures CaselessChar(s[p + k], "closes"[k]) {
        assert s[p + k] == s[p..p + 8][k];
      }
    }
    assert s[p + 6] == s[p..p + 8][6] && s[p + 7] == s[p..p + 8][7];
    RunFromExact(s, p + 6, PySpace, 1);
    assert s[p + 8] == s[p + 8..p + 8 + |dec|][0];
    RunFromExact(s, p + 8, PySpace, 0);
    assert ClosesAt(s, p, issue);
  }

  /** The issue 42 counts as closed by "Closes #420". */
  lemma LongerNumberCounts()
    ensures HasClosesLine("Closes #420", 42)
  {
    var dec := IntToDecimal(42);
    assert dec == NatToDecimal(4) + [DigitChar(2)];
    assert "Closes #420"[8..10] == dec;
    ClosesTextMatches("Closes #420", 0, 42);
  }

  /** The appended line holds "Closes #" and the issue number's text right after its leading newline. */
  lemma ClosesLineLayout(t: string, issue: int)
    ensures OccursAt(t + ClosesLine(issue), "Closes #", |t| + 1)
    ensures OccursAt(t + ClosesLine(issue), IntToDecimal(issue), |t| + 9)
  {
    var dec := IntToDecimal(issue);
    var c := ClosesLine(issue);
    var s := t + c;
    assert c[1..9] == "Closes #";
    assert c[9..9 + |dec|] == dec;
    assert s[|t| + 1..|t| + 9] == c[1..9];
    assert s[|t| + 9..|t| + 9 + |dec|] == c[9..9 + |dec|];
  }

  /** After the append the text always has a closes line. */
  lemma WithClosesLineMatches(content: string, issue: int)
    ensures HasClosesLine(WithClosesLine(content, issue), issue)
  {
    if !HasClosesLine(content, issue) {
      var t := TrimNewlines(content);
      ClosesLineLayout(t, issue);
      ClosesTextMatches(t + ClosesLine(issue), |t| + 1, issue);
    }
  }

  /** `_append_closes_line` is idempotent. */
  lemma WithClosesLineIdempotent(content: string, issue: int)
    ensures WithClosesLine(WithClosesLine(content, issue), issue) == WithClosesLine(content, issue)
  {
    WithClosesLineMatches(content, issue);
  }

  /** Once a closes line is present nothing changes; otherwise exactly one line is added after the trimmed text. */
  lemma WithClosesLineShape(content: string, issue: int)
    ensures HasClosesLine(content, issue) ==> WithClosesLine(content, issue) == content
    ensures !HasClosesLine(content, issue) ==>
      var t := TrimNewlines(content);
      && WithClosesLine(content, issue)[..|t|] == t && t == content[..|t|]
      && WithClosesLine(content, issue)[|t|..] == ClosesLine(issue)
  {
  }

  /** The finalize file, whose text `_append_closes_line` rewrites. */
  class FinalizeFile {
    var text: string

    constructor(text: string)
      ensures this.text == text
    {
      this.text := text;
    }

    /** `_append_closes_line`: writes only when no closes line for the issue is present. */
    method AppendClosesLine(issue: int)
      modifies this
      ensures text == WithClosesLine(old(text), issue)
      ensures HasClosesLine(text, issue)
    {
      var content := text;
      if HasClosesLine(content, issue) {
        return;
      }
      WithClosesLineMatches(content, issue);
      text := TrimNewlines(content) + ClosesLine(issue);
    }
  }

  // ---------------------------------------------------------------------
  // simp_kernel
  // ---------------------------------------------------------------------

  /** How a call of the simplification workflow ended. */
  datatype SimpOutcome = SimpCompleted | SimpFailed(message: string) | OtherError(message: string)

  /** `simp_kernel`'s mapping: success only on completion; every exception becomes a failure. */
  function SimpResult(outcome: SimpOutcome): (r: (bool, string))
    ensures r.0 <==> outcome.SimpCompleted?
  {
    match outcome
    case SimpCompleted => (true, "Simplification completed successfully")
    case SimpFailed(msg) => (false, "Simplification failed: " + msg)
    case OtherError(msg) => (false, "Unexpected error during simplification: " + msg)
  }

  /** The keyword parameters `run_simp_workflow` accepts. */
  const SimpParameters: set<string> := {"file_path", "backend", "max_files", "seed"}

  /** The keywords `simp_kernel` passes, in call order. */
  const SimpKeywords: seq<string> := ["file_path", "backend", "max_files", "issue_number", "focus"]

  /** The first keyword the callee does not accept. */
  function FirstUnexpected(keywords: seq<string>, accepted: set<string>): (r: Option<string>)
    ensures r.None? <==> forall k :: 0 <= k < |keywords| ==> keywords[k] in accepted
    ensures r.Some? ==> r.value !in accepted
  {
    if |keywords| == 0 then None
    else if keywords[0] !in accepted then Some(keywords[0])
    else FirstUnexpected(keywords[1..], accepted)
  }

  /** The TypeError text for a keyword the callee does not take. */
  function UnexpectedKeyword(k: string): string {
    "run_simp_workflow() got an unexpected keyword argument '" + k + "'"
  }

  /**
   * `simp_kernel` given how the workflow itself would end: a keyword the
   * workflow does not accept raises TypeError before it starts.
   */
  function SimpKernel(workflow: SimpOutcome): (r: (bool, string))
  {
    match FirstUnexpected(SimpKeywords, SimpParameters)
    case Some(k) => SimpResult(OtherError(UnexpectedKeyword(k)))
    case None => SimpResult(workflow)
  }

  /** With the workflow's signature as it is, `simp_kernel` fails whatever the workflow would do. */
  lemma SimpKernelAlwaysFails(workflow: SimpOutcome)
    ensures !SimpKernel(workflow).0
    ensures SimpKernel(workflow) == SimpResult(OtherError(UnexpectedKeyword("issue_number")))
  {
    var p := SimpParameters;
    assert "file_path" in p && "backend" in p && "max_files" in p && "issue_number" !in p;
    assert SimpKeywords[1..] == ["backend", "max_files", "issue_number", "focus"];
    assert SimpKeywords[1..][1..] == ["max_files", "issue_number", "focus"];
    assert SimpKeywords[1..][1..][1..] == ["issue_number", "focus"];
    assert FirstUnexpected(["issue_number", "focus"], p) == Some("issue_number");
    assert FirstUnexpected(SimpKeywords, p) == Some("issue_number");
  }
}
