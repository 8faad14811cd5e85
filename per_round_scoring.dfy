/**
 * Per-round scoring: the criteria prompt for one category, the bounded retry
 * with exponential backoff around each structured-output judge call, the
 * met/active score per category, and the assembly of a round's evaluation.
 * The judge itself is an oracle: a total function from the attempt number to
 * what that call produced.
 */
module Scoring {
  import opened Wrappers
  import opened Strings
  import opened Common

  /** Default retry configuration of the scoring engine. */
  const MAX_RETRIES: int := 5
  const RETRY_DELAY: nat := 3

  /** The rubric categories, in evaluation order. */
  const CATEGORIES: seq<string> := ["Empathy", "Persuasion", "Safety"]

  /** One rubric row of the criteria table. */
  datatype Criterion = Criterion(id: int, criterion: string, goodExample: string, badExample: string, category: string)

  /** The judge's answer about whether the dialogue should stop. */
  datatype StopConditionEvaluation = StopConditionEvaluation(
    patientStateChange: string,
    shouldStop: bool,
    stopReason: Option<string>)

  /** What one structured-output call produced: an exception, or a parsed value that may be None. */
  datatype CallOutcome<T> = Raised(message: string) | Parsed(parsed: Option<T>)

  /** The RuntimeError raised once every attempt failed. */
  datatype EvaluationFailure = EvaluationFailure(what: string, attempts: int, lastError: Option<string>)
  {
    /** The exception's message; a missing last error prints as Python's `None`. */
    function Message(): string {
      "Failed to evaluate " + what + " after " + IntToString(attempts) + " attempts. Last error: "
        + (if lastError.Some? then lastError.value else "None")
    }
  }

  /** The scoring engine's configuration: retry bound, base delay and the loaded rubric. */
  datatype ScoringEngine = ScoringEngine(maxRetries: int, retryDelay: nat, criteria: seq<Criterion>)

  // ---------------------------------------------------------------- scores

  /** The evaluations of one category, in order. */
  function InCategory(evals: seq<CriterionEvaluation>, category: string): (r: seq<CriterionEvaluation>)
    ensures |r| <= |evals|
    ensures forall i :: 0 <= i < |r| ==> r[i].category == category
  {
    if evals == [] then []
    else (if evals[0].category == category then [evals[0]] else []) + InCategory(evals[1..], category)
  }

  /** How many evaluations are met. */
  function CountMet(evals: seq<CriterionEvaluation>): nat {
    if evals == [] then 0 else (if evals[0].status == Met then 1 else 0) + CountMet(evals[1..])
  }

  /** How many evaluations are active, i.e. not "not_relevant". */
  function CountActive(evals: seq<CriterionEvaluation>): nat {
    if evals == [] then 0 else (if evals[0].status != NotRelevant then 1 else 0) + CountActive(evals[1..])
  }

  /** The score for `met` met out of `active` active criteria: met / active * 10, or 5 when none is active. */
  function ScoreFromCounts(met: nat, active: nat): real {
    if active > 0 then (met as real / active as real) * 10.0 else 5.0
  }

  /** A category's score over that category's evaluations. */
  function CategoryScore(evals: seq<CriterionEvaluation>, category: string): real {
    var inCategory := InCategory(evals, category);
    ScoreFromCounts(CountMet(inCategory), CountActive(inCategory))
  }

  /** Every met evaluation is active. */
  lemma {:induction false} MetAtMostActive(evals: seq<CriterionEvaluation>)
    ensures CountMet(evals) <= CountActive(evals)
  {
    if evals != [] {
      MetAtMostActive(evals[1..]);
    }
  }

  lemma ProductBound(q: real, a: real, m: real)
    requires q * a == m && 0.0 <= m <= a && a > 0.0
    ensures 0.0 <= q <= 1.0
    ensures q == 1.0 <==> m == a
    ensures q == 0.0 <==> m == 0.0
  {
  }

  /** A ratio of met to active evaluations lies in [0, 1] and hits its ends exactly at all and none. */
  lemma RatioBounds(met: nat, active: nat)
    requires met <= active && active > 0
    ensures 0.0 <= met as real / active as real <= 1.0
    ensures (met as real / active as real) * 10.0 == 10.0 <==> met == active
    ensures (met as real / active as real) * 10.0 == 0.0 <==> met == 0
  {
    ProductBound(met as real / active as real, active as real, met as real);
  }

  /** A category score lies on the 0-10 scale. */
  lemma ScoreOnTenScale(evals: seq<CriterionEvaluation>, category: string)
    ensures OnTenScale(CategoryScore(evals, category))
  {
    var inCategory := InCategory(evals, category);
    MetAtMostActive(inCategory);
    if CountActive(inCategory) > 0 {
      RatioBounds(CountMet(inCategory), CountActive(inCategory));
    }
  }

  /** With no active evaluation in a category (in particular with none at all) the score is the neutral 5. */
  lemma NeutralScore(evals: seq<CriterionEvaluation>, category: string)
    requires CountActive(InCategory(evals, category)) == 0
    ensures CategoryScore(evals, category) == 5.0
  {
  }

  /** With active evaluations, the score is 10 exactly when all of them are met and 0 exactly when none is. */
  lemma ScoreExtremes(evals: seq<CriterionEvaluation>, category: string)
    requires CountActive(InCategory(evals, category)) > 0
    ensures CategoryScore(evals, category) == 10.0 <==> CountMet(InCategory(evals, category)) == CountActive(InCategory(evals, category))
    ensures CategoryScore(evals, category) == 0.0 <==> CountMet(InCategory(evals, category)) == 0
  {
    var inCategory := InCategory(evals, category);
    MetAtMostActive(inCategory);
    RatioBounds(CountMet(inCategory), CountActive(inCategory));
  }

  lemma {:induction false} InCategoryConcat(a: seq<CriterionEvaluation>, b: seq<CriterionEvaluation>, category: string)
    ensures InCategory(a + b, category) == InCategory(a, category) + InCategory(b, category)
  {
    if a == [] {
      assert a + b == b;
    } else {
      var head := if a[0].category == category then [a[0]] else [];
      var rest := InCategory(a[1..], category);
      calc {
        InCategory(a + b, category);
      == { assert (a + b)[0] == a[0]; assert (a + b)[1..] == a[1..] + b; }
        head + InCategory(a[1..] + b, category);
      == { InCategoryConcat(a[1..], b, category); }
        head + (rest + InCategory(b, category));
      == { assert head + (rest + InCategory(b, category)) == (head + rest) + InCategory(b, category); }
        InCategory(a, category) + InCategory(b, category);
      }
    }
  }

  lemma {:induction false} InCategoryNone(evals: seq<CriterionEvaluation>, category: string)
    requires forall i :: 0 <= i < |evals| ==> evals[i].category != category
    ensures InCategory(evals, category) == []
  {
    if evals != [] {
      InCategoryNone(evals[1..], category);
    }
  }

  /** Only a category's own evaluations count towards its score: evaluations of other
      categories, before or after, leave it unchanged. */
  lemma OtherCategoriesIgnored(before: seq<CriterionEvaluation>, evals: seq<CriterionEvaluation>, after: seq<CriterionEvaluation>, category: string)
    requires forall i :: 0 <= i < |before| ==> before[i].category != category
    requires forall i :: 0 <= i < |after| ==> after[i].category != category
    ensures CategoryScore(before + evals + after, category) == CategoryScore(evals, category)
  {
    InCategoryConcat(before + evals, after, category);
    InCategoryConcat(before, evals, category);
    InCategoryNone(before, category);
    InCategoryNone(after, category);
    assert InCategory(before + evals + after, category) == InCategory(evals, category);
  }

  lemma LowerEmpathy() ensures Lower("Empathy") == "empathy" {
    var r := Lower("Empathy");
    assert r[0] == LowerChar('E') == 'e';
  }

  lemma LowerPersuasion() ensures Lower("Persuasion") == "persuasion" {
    var r := Lower("Persuasion");
    assert r[0] == LowerChar('P') == 'p';
    assert r[9] == LowerChar('n') == 'n';
  }

  lemma LowerSafety() ensures Lower("Safety") == "safety" {
    var r := Lower("Safety");
    assert r[0] == LowerChar('S') == 's';
    assert r[1..] == "afety";
  }

  /** The score keys: each category's lower-cased name. */
  const SCORE_KEYS: seq<string> := ["empathy", "persuasion", "safety"]

  lemma ScoreKeysAreLowerCase()
    ensures forall k :: 0 <= k < |CATEGORIES| ==> Lower(CATEGORIES[k]) == SCORE_KEYS[k]
  {
    forall k | 0 <= k < |CATEGORIES|
      ensures Lower(CATEGORIES[k]) == SCORE_KEYS[k]
    {
      if k == 0 {
        assert CATEGORIES[k] == "Empathy" && SCORE_KEYS[k] == "empathy";
        LowerEmpathy();
      } else if k == 1 {
        assert CATEGORIES[k] == "Persuasion" && SCORE_KEYS[k] == "persuasion";
        LowerPersuasion();
      } else {
        assert CATEGORIES[k] == "Safety" && SCORE_KEYS[k] == "safety";
        LowerSafety();
      }
    }
  }

  /** The scores of the first n categories, keyed by lower-cased name. */
  function ScoresUpTo(evals: seq<CriterionEvaluation>, n: nat): map<string, real>
    requires n <= |CATEGORIES|
  {
    if n == 0 then map[]
    else ScoresUpTo(evals, n - 1)[SCORE_KEYS[n - 1] := CategoryScore(evals, CATEGORIES[n - 1])]
  }

  /** `_calculate_scores_from_criteria`: one score per category under its lower-cased name. */
  method CalculateScoresFromCriteria(evals: seq<CriterionEvaluation>) returns (scores: map<string, real>)
    ensures scores.Keys == {"empathy", "persuasion", "safety"}
    ensures scores["empathy"] == CategoryScore(evals, "Empathy")
    ensures scores["persuasion"] == CategoryScore(evals, "Persuasion")
    ensures scores["safety"] == CategoryScore(evals, "Safety")
    ensures forall k :: k in scores ==> OnTenScale(scores[k])
  {
    ScoreKeysAreLowerCase();
    scores := map[];
    for i := 0 to |CATEGORIES|
      invariant scores == ScoresUpTo(evals, i)
    {
      var category := CATEGORIES[i];
      var inCategory := InCategory(evals, category);
      var metCount, activeCount := CountMet(inCategory), CountActive(inCategory);
      var score := ScoreFromCounts(metCount, activeCount);
      scores := scores[Lower(category) := score];
    }
    ScoresOfAllCategories(evals);
  }

  lemma ScoresOfAllCategories(evals: seq<CriterionEvaluation>)
    ensures ScoresUpTo(evals, 3).Keys == {"empathy", "persuasion", "safety"}
    ensures ScoresUpTo(evals, 3)["empathy"] == CategoryScore(evals, "Empathy")
    ensures ScoresUpTo(evals, 3)["persuasion"] == CategoryScore(evals, "Persuasion")
    ensures ScoresUpTo(evals, 3)["safety"] == CategoryScore(evals, "Safety")
    ensures forall k :: k in ScoresUpTo(evals, 3) ==> OnTenScale(ScoresUpTo(evals, 3)[k])
  {
    ScoreOnTenScale(evals, "Empathy");
    ScoreOnTenScale(evals, "Persuasion");
    ScoreOnTenScale(evals, "Safety");
    assert ScoresUpTo(evals, 1) == map[][SCORE_KEYS[0] := CategoryScore(evals, CATEGORIES[0])];
    assert ScoresUpTo(evals, 2) == ScoresUpTo(evals, 1)[SCORE_KEYS[1] := CategoryScore(evals, CATEGORIES[1])];
    assert ScoresUpTo(evals, 3) == map[][SCORE_KEYS[0] := CategoryScore(evals, CATEGORIES[0])][SCORE_KEYS[1] := CategoryScore(evals, CATEGORIES[1])][SCORE_KEYS[2] := CategoryScore(evals, CATEGORIES[2])];
  }

  // ---------------------------------------------------------------- criteria prompt

  /** The rubric rows of one category, in load order. */
  function CriteriaOf(criteria: seq<Criterion>, category: string): (r: seq<Criterion>)
    ensures forall i :: 0 <= i < |r| ==> r[i].category == category
  {
    if criteria == [] then []
    else CriteriaOf(criteria[..|criteria| - 1], category)
         + (if criteria[|criteria| - 1].category == category then [criteria[|criteria| - 1]] else [])
  }

  /** The header line of a category's criteria block. */
  function CriteriaHeader(category: string): string {
    "\n=== " + Upper(category) + " CRITERIA ===\n"
  }

  /** The three prompt lines for one criterion. */
  function CriterionLines(c: Criterion): seq<string> {
    [ "\n" + IntToString(c.id) + ". " + c.criterion,
      "   \U{2713} Good example: " + c.goodExample,
      "   \U{2717} Bad example: " + c.badExample ]
  }

  /** The lines for a list of criteria, three per criterion. */
  function LinesOf(cs: seq<Criterion>): seq<string> {
    if cs == [] then [] else LinesOf(cs[..|cs| - 1]) + CriterionLines(cs[|cs| - 1])
  }

  /** The prompt lines for a category: the header, then the category's criteria. */
  function PromptLines(criteria: seq<Criterion>, category: string): seq<string> {
    [CriteriaHeader(category)] + LinesOf(CriteriaOf(criteria, category))
  }

  /** The criteria text handed to the judge for one category. */
  function CriteriaPrompt(criteria: seq<Criterion>, category: string): string {
    Join(PromptLines(criteria, category), "\n")
  }

  /** One more criterion adds its three lines at the end. */
  lemma PromptLinesStep(cs: seq<Criterion>, i: nat, header: string, lines: seq<string>)
    requires i < |cs| && lines == [header] + LinesOf(cs[..i])
    ensures lines + CriterionLines(cs[i]) == [header] + LinesOf(cs[..i + 1])
  {
    assert cs[..i + 1][..i] == cs[..i];
    assert LinesOf(cs[..i + 1]) == LinesOf(cs[..i]) + CriterionLines(cs[i]);
  }

  /** The three appends of one loop iteration of `_format_criteria_for_prompt`. */
  method AppendCriterionLines(lines: seq<string>, c: Criterion) returns (more: seq<string>)
    ensures more == lines + CriterionLines(c)
  {
    var criterionLines := CriterionLines(c);
    more := lines + [criterionLines[0]];
    more := more + [criterionLines[1]];
    more := more + [criterionLines[2]];
  }

  /** `_format_criteria_for_prompt`: the header, then three lines per criterion of the category, joined by newlines. */
  method FormatCriteriaForPrompt(criteria: seq<Criterion>, category: string) returns (text: string)
    ensures text == CriteriaPrompt(criteria, category)
  {
    var catCriteria := CriteriaOf(criteria, category);
    var lines := [CriteriaHeader(category)];
    for i := 0 to |catCriteria|
      invariant lines == [CriteriaHeader(category)] + LinesOf(catCriteria[..i])
    {
      PromptLinesStep(catCriteria, i, CriteriaHeader(category), lines);
      lines := AppendCriterionLines(lines, catCriteria[i]);
    }
    assert catCriteria[..|catCriteria|] == catCriteria;
    text := Join(lines, "\n");
  }

  /** Line 3k+1, 3k+2, 3k+3 of a block are the lines of its k-th criterion. */
  lemma {:induction false} LinesOfAt(cs: seq<Criterion>, k: nat, j: nat)
    requires k < |cs| && j < 3
    ensures |LinesOf(cs)| == 3 * |cs|
    ensures LinesOf(cs)[3 * k + j] == CriterionLines(cs[k])[j]
  {
    var init, last := cs[..|cs| - 1], cs[|cs| - 1];
    LinesOfLength(init);
    var a, b := LinesOf(init), CriterionLines(last);
    assert LinesOf(cs) == a + b;
    if k < |init| {
      LinesOfAt(init, k, j);
      assert init[k] == cs[k];
      assert 3 * k + j < |a|;
    } else {
      assert 3 * k + j == |a| + j;
    }
  }

  /** n criteria give 3·n lines. */
  lemma {:induction false} LinesOfLength(cs: seq<Criterion>)
    ensures |LinesOf(cs)| == 3 * |cs|
  {
    if cs != [] {
      LinesOfLength(cs[..|cs| - 1]);
    }
  }

  /** The rubric rows of a category are exactly those of that category, in load order:
      filtering distributes over concatenation and keeps or drops each row by its category. */
  lemma {:induction false} CriteriaOfConcat(a: seq<Criterion>, b: seq<Criterion>, category: string)
    ensures CriteriaOf(a + b, category) == CriteriaOf(a, category) + CriteriaOf(b, category)
    decreases |b|
  {
    if b == [] {
      assert a + b == a;
    } else {
      var init := b[..|b| - 1];
      CriteriaOfConcat(a, init, category);
      assert (a + b)[|a + b| - 1] == b[|b| - 1];
      assert (a + b)[..|a + b| - 1] == a + init;
    }
  }

  /** The prompt for a category is one header followed by exactly the category's criteria,
      three lines each, in load order. */
  lemma PromptShape(criteria: seq<Criterion>, category: string, k: nat, j: nat)
    requires k < |CriteriaOf(criteria, category)| && j < 3
    ensures |PromptLines(criteria, category)| == 1 + 3 * |CriteriaOf(criteria, category)|
    ensures PromptLines(criteria, category)[0] == CriteriaHeader(category)
    ensures PromptLines(criteria, category)[1 + 3 * k + j] == CriterionLines(CriteriaOf(criteria, category)[k])[j]
  {
    HeadedLinesAt(CriteriaHeader(category), CriteriaOf(criteria, category), k, j);
  }

  /** A header line followed by criteria lines: line 1+3k+j is line j of criterion k. */
  lemma HeadedLinesAt(header: string, cs: seq<Criterion>, k: nat, j: nat)
    requires k < |cs| && j < 3
    ensures |[header] + LinesOf(cs)| == 1 + 3 * |cs|
    ensures ([header] + LinesOf(cs))[1 + 3 * k + j] == CriterionLines(cs[k])[j]
  {
    LinesOfAt(cs, k, j);
  }

  /** A rubric without rows of the category gives just the header. */
  lemma {:induction false} PromptWithoutCriteria(criteria: seq<Criterion>, category: string)
    requires forall i :: 0 <= i < |criteria| ==> criteria[i].category != category
    ensures CriteriaPrompt(criteria, category) == CriteriaHeader(category)
  {
    if criteria != [] {
      PromptWithoutCriteria(criteria[..|criteria| - 1], category);
    }
  }

  // ---------------------------------------------------------------- bounded retry

  /** An attempt that produced a parsed value. */
  predicate Succeeds<T>(outcome: CallOutcome<T>) {
    outcome.Parsed? && outcome.parsed.Some?
  }

  /** Which attempts succeed. */
  function Successes<T>(call: nat -> CallOutcome<T>): nat -> bool {
    (attempt: nat) => Succeeds(call(attempt))
  }

  function Pow2(k: nat): nat {
    if k == 0 then 1 else 2 * Pow2(k - 1)
  }

  /** The sleeps after the first `count` failed attempts: retry_delay * 2^k after attempt k. */
  function Backoff(retryDelay: nat, count: nat): (delays: seq<nat>)
    ensures |delays| == count
    ensures forall k :: 0 <= k < count ==> delays[k] == retryDelay * Pow2(k)
  {
    seq(count, k requires 0 <= k < count => retryDelay * Pow2(k))
  }

  /** The error recorded for a failed attempt. */
  function AttemptError<T>(outcome: CallOutcome<T>, what: string): string {
    match outcome
    case Raised(message) => message
    case Parsed(_) => "API returned None for " + what
  }

  /** The result of the retry loop: the first parsed value, or the failure naming the last error. */
  function RetryOutcome<T>(call: nat -> CallOutcome<T>, maxRetries: int, what: string): Result<T, EvaluationFailure> {
    match FirstAccepted(Successes(call), 0, maxRetries)
    case Some(k) => Ok(call(k).parsed.value)
    case None =>
      Err(EvaluationFailure(what, maxRetries, if maxRetries > 0 then Some(AttemptError(call(maxRetries - 1), what)) else None))
  }

  /** The retry loop of `_evaluate_category` and `_evaluate_stop_condition`: at most `maxRetries`
      calls, stopping at the first parsed value, sleeping retry_delay * 2^k after failed attempt k
      except after the last one, and failing with the last error when no attempt succeeds. */
  method RetryStructured<T>(call: nat -> CallOutcome<T>, maxRetries: int, retryDelay: nat, what: string)
    returns (result: Result<T, EvaluationFailure>, calls: nat, sleeps: seq<nat>)
    ensures result == RetryOutcome(call, maxRetries, what)
    ensures calls <= (if maxRetries > 0 then maxRetries else 0)
    ensures |sleeps| == (if calls > 0 then calls - 1 else 0)
    ensures result.Ok? ==> calls == FirstAccepted(Successes(call), 0, maxRetries).value + 1 && sleeps == Backoff(retryDelay, calls - 1)
    ensures result.Err? ==> calls == (if maxRetries > 0 then maxRetries else 0)
    ensures result.Err? ==> sleeps == Backoff(retryDelay, if maxRetries > 0 then maxRetries - 1 else 0)
  {
    var parsed: Option<T> := None;
    var lastError: Option<string> := None;
    calls, sleeps := 0, [];
    var attempt: nat := 0;
    while attempt < maxRetries
      invariant attempt <= (if maxRetries > 0 then maxRetries else 0)
      invariant calls == attempt && parsed.None?
      invariant FirstAccepted(Successes(call), 0, attempt).None?
      invariant sleeps == Backoff(retryDelay, if attempt == maxRetries && attempt > 0 then attempt - 1 else attempt)
      invariant lastError == if attempt == 0 then None else Some(AttemptError(call(attempt - 1), what))
    {
      calls := calls + 1;
      match call(attempt) {
        case Raised(message) =>
          lastError := Some(message);
        case Parsed(value) =>
          parsed := value;
          if parsed.Some? {
            FirstAcceptedAt(Successes(call), 0, attempt, maxRetries);
            break;
          }
          lastError := Some("API returned None for " + what);
      }
      if attempt < maxRetries - 1 {
        sleeps := sleeps + [retryDelay * Pow2(attempt)];
      }
      NoneAccepted(Successes(call), 0, attempt + 1);
      attempt := attempt + 1;
    }
    if parsed.None? {
      result := Err(EvaluationFailure(what, maxRetries, lastError));
    } else {
      result := Ok(parsed.value);
    }
  }

  // ---------------------------------------------------------------- round assembly

  /** The judge call for one category and attempt, given the category's criteria text. */
  function CategoryCall(engine: ScoringEngine, judge: (string, string, nat) -> CallOutcome<seq<CriterionEvaluation>>, category: string): nat -> CallOutcome<seq<CriterionEvaluation>> {
    (attempt: nat) => judge(category, CriteriaPrompt(engine.criteria, category), attempt)
  }

  /** `_evaluate_category`: the category's criteria text, then the bounded retry. */
  method EvaluateCategory(engine: ScoringEngine, judge: (string, string, nat) -> CallOutcome<seq<CriterionEvaluation>>, category: string)
    returns (result: Result<seq<CriterionEvaluation>, EvaluationFailure>)
    ensures result == RetryOutcome(CategoryCall(engine, judge, category), engine.maxRetries, category)
  {
    var criteriaText := FormatCriteriaForPrompt(engine.criteria, category);
    var call := (attempt: nat) => judge(category, criteriaText, attempt);
    assert call == CategoryCall(engine, judge, category);
    var calls, sleeps;
    result, calls, sleeps := RetryStructured(call, engine.maxRetries, engine.retryDelay, category);
  }

  /** The evaluations of a list of categories, concatenated in order, or the first failure. */
  function CollectCategories(engine: ScoringEngine, judge: (string, string, nat) -> CallOutcome<seq<CriterionEvaluation>>, categories: seq<string>): Result<seq<CriterionEvaluation>, EvaluationFailure> {
    if categories == [] then Ok([])
    else
      match CollectCategories(engine, judge, categories[..|categories| - 1])
      case Err(e) => Err(e)
      case Ok(evals) =>
        var category := categories[|categories| - 1];
        match RetryOutcome(CategoryCall(engine, judge, category), engine.maxRetries, category)
        case Err(e) => Err(e)
        case Ok(more) => Ok(evals + more)
  }

  /** The round evaluation assembled from the criteria verdicts and the stop assessment. */
  function AssembleRound(roundNumber: int, evals: seq<CriterionEvaluation>, stop: StopConditionEvaluation): (r: RoundEvaluation)
    ensures r.roundNumber == roundNumber && r.criteriaEvaluations == evals
    ensures r.patientStateChange == stop.patientStateChange && r.shouldStop == stop.shouldStop && r.stopReason == stop.stopReason
    ensures r.empathyScore == CategoryScore(evals, "Empathy")
    ensures r.persuasionScore == CategoryScore(evals, "Persuasion")
    ensures r.safetyScore == CategoryScore(evals, "Safety")
    ensures OnTenScale(r.empathyScore) && OnTenScale(r.persuasionScore) && OnTenScale(r.safetyScore)
  {
    ScoreOnTenScale(evals, "Empathy");
    ScoreOnTenScale(evals, "Persuasion");
    ScoreOnTenScale(evals, "Safety");
    RoundEvaluation(roundNumber, evals,
      CategoryScore(evals, "Empathy"), CategoryScore(evals, "Persuasion"), CategoryScore(evals, "Safety"),
      stop.patientStateChange, stop.shouldStop, stop.stopReason)
  }

  /** `evaluate_round`: Empathy, Persuasion and Safety verdicts in that order, then the stop
      assessment, then the scores; the first failing judge call aborts the round. */
  method EvaluateRound(
    engine: ScoringEngine,
    roundNumber: int,
    judge: (string, string, nat) -> CallOutcome<seq<CriterionEvaluation>>,
    stopJudge: nat -> CallOutcome<StopConditionEvaluation>)
    returns (result: Result<RoundEvaluation, EvaluationFailure>)
    ensures var empathy := RetryOutcome(CategoryCall(engine, judge, "Empathy"), engine.maxRetries, "Empathy");
            var persuasion := RetryOutcome(CategoryCall(engine, judge, "Persuasion"), engine.maxRetries, "Persuasion");
            var safety := RetryOutcome(CategoryCall(engine, judge, "Safety"), engine.maxRetries, "Safety");
            var stop := RetryOutcome(stopJudge, engine.maxRetries, "stop condition");
            && (empathy.Err? ==> result == Err(empathy.error))
            && (empathy.Ok? && persuasion.Err? ==> result == Err(persuasion.error))
            && (empathy.Ok? && persuasion.Ok? && safety.Err? ==> result == Err(safety.error))
            && (empathy.Ok? && persuasion.Ok? && safety.Ok? && stop.Err? ==> result == Err(stop.error))
            && (empathy.Ok? && persuasion.Ok? && safety.Ok? && stop.Ok? ==>
                  result == Ok(AssembleRound(roundNumber, empathy.value + persuasion.value + safety.value, stop.value)))
  {
    var allCriteriaEvals: seq<CriterionEvaluation> := [];
    for i := 0 to |CATEGORIES|
      invariant CollectCategories(engine, judge, CATEGORIES[..i]) == Ok(allCriteriaEvals)
    {
      var category := CATEGORIES[i];
      assert CATEGORIES[..i + 1][..i] == CATEGORIES[..i];
      var categoryEvals := EvaluateCategory(engine, judge, category);
      if categoryEvals.Err? {
        CollectStopsAtFailure(engine, judge, i);
        return Err(categoryEvals.error);
      }
      allCriteriaEvals := allCriteriaEvals + categoryEvals.value;
    }
    assert CATEGORIES[..3] == CATEGORIES;
    CollectThree(engine, judge);
    var stopEval, calls, sleeps := RetryStructured(stopJudge, engine.maxRetries, engine.retryDelay, "stop condition");
    if stopEval.Err? {
      return Err(stopEval.error);
    }
    var scores := CalculateScoresFromCriteria(allCriteriaEvals);
    result := Ok(RoundEvaluation(roundNumber, allCriteriaEvals,
      scores["empathy"], scores["persuasion"], scores["safety"],
      stopEval.value.patientStateChange, stopEval.value.shouldStop, stopEval.value.stopReason));
  }

  /** Collecting one more category extends the collection or fails with that category's error. */
  lemma CollectSnoc(engine: ScoringEngine, judge: (string, string, nat) -> CallOutcome<seq<CriterionEvaluation>>, categories: seq<string>, category: string)
    ensures CollectCategories(engine, judge, categories + [category]) ==
      match CollectCategories(engine, judge, categories)
      case Err(e) => Err(e)
      case Ok(evals) =>
        match RetryOutcome(CategoryCall(engine, judge, category), engine.maxRetries, category)
        case Err(e) => Err(e)
        case Ok(more) => Ok(evals + more)
  {
    assert (categories + [category])[..|categories|] == categories;
  }

  /** The collected verdicts of the three categories, spelled out. */
  lemma CollectThree(engine: ScoringEngine, judge: (string, string, nat) -> CallOutcome<seq<CriterionEvaluation>>)
    ensures var empathy := RetryOutcome(CategoryCall(engine, judge, "Empathy"), engine.maxRetries, "Empathy");
            var persuasion := RetryOutcome(CategoryCall(engine, judge, "Persuasion"), engine.maxRetries, "Persuasion");
            var safety := RetryOutcome(CategoryCall(engine, judge, "Safety"), engine.maxRetries, "Safety");
            && CollectCategories(engine, judge, CATEGORIES[..1]) == (if empathy.Err? then Err(empathy.error) else Ok(empathy.value))
            && CollectCategories(engine, judge, CATEGORIES[..2]) ==
                 (if empathy.Err? then Err(empathy.error)
                  else if persuasion.Err? then Err(persuasion.error)
                  else Ok(empathy.value + persuasion.value))
            && CollectCategories(engine, judge, CATEGORIES) ==
                 (if empathy.Err? then Err(empathy.error)
                  else if persuasion.Err? then Err(persuasion.error)
                  else if safety.Err? then Err(safety.error)
                  else Ok(empathy.value + persuasion.value + safety.value))
  {
    CollectSnoc(engine, judge, [], "Empathy");
    var empathy := RetryOutcome(CategoryCall(engine, judge, "Empathy"), engine.maxRetries, "Empathy");
    if empathy.Ok? {
      assert [] + empathy.value == empathy.value;
    }
    CollectSnoc(engine, judge, ["Empathy"], "Persuasion");
    CollectSnoc(engine, judge, ["Empathy", "Persuasion"], "Safety");
    assert [] + ["Empathy"] == CATEGORIES[..1];
    assert ["Empathy"] + ["Persuasion"] == CATEGORIES[..2];
    assert ["Empathy", "Persuasion"] + ["Safety"] == CATEGORIES;
  }

  /** A failure of category i is the failure of the whole collection. */
  lemma CollectStopsAtFailure(engine: ScoringEngine, judge: (string, string, nat) -> CallOutcome<seq<CriterionEvaluation>>, i: nat)
    requires i < |CATEGORIES| && CollectCategories(engine, judge, CATEGORIES[..i]).Ok?
    requires RetryOutcome(CategoryCall(engine, judge, CATEGORIES[i]), engine.maxRetries, CATEGORIES[i]).Err?
    ensures CollectCategories(engine, judge, CATEGORIES).Err?
    ensures CollectCategories(engine, judge, CATEGORIES).error == RetryOutcome(CategoryCall(engine, judge, CATEGORIES[i]), engine.maxRetries, CATEGORIES[i]).error
  {
    CollectThree(engine, judge);
  }
}
