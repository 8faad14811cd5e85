/**
 * The record types and enumerated literals shared by the medical-dialogue
 * judge: criterion verdicts, patient background and its doctor-visible
 * projection, per-round evaluations, dialogue turns and sessions, reports.
 */
module Common {
  import opened Wrappers

  /** The three verdicts a criterion can receive. */
  datatype Status = Met | NotMet | NotRelevant

  /** Verdict on one rubric criterion; `category` is "Empathy", "Persuasion" or "Safety". */
  datatype CriterionEvaluation = CriterionEvaluation(
    criterionId: int,
    criterionText: string,
    category: string,
    status: Status,
    evidence: Option<string>)

  /** Minimal persona record; `characterDescription` holds the patient system prompt. */
  datatype PatientPersona = PatientPersona(
    personaId: string,
    mbtiType: string,
    gender: Option<string>,
    medicalCase: string,
    characterDescription: string)

  /** The seven texts that fill the role-play priming template. */
  datatype PatientRoleplayExamples = PatientRoleplayExamples(
    roleCoreDescription: string,
    roleAcknowledgementPhrase: string,
    roleRulesAndConstraints: string,
    roleConfirmationPhrase: string,
    exampleSay: string,
    exampleThink: string,
    exampleDo: string)

  /** Everything known about the simulated patient, including what the doctor must not see. */
  datatype PatientBackground = PatientBackground(
    age: int,
    gender: string,
    occupation: string,
    medicalCase: string,
    symptoms: string,
    diagnosis: string,
    recommendedTreatment: string,
    treatmentRisks: string,
    treatmentBenefits: string,
    prognosisWithTreatment: string,
    prognosisWithoutTreatment: string,
    familySituation: string,
    lifestyle: string,
    values: string,
    concernsAndFears: string)

  /** What the doctor is told about the patient: no symptoms, personality or personal life. */
  datatype PatientClinicalInfo = PatientClinicalInfo(
    age: int,
    gender: Option<string>,
    medicalCase: string,
    diagnosis: string,
    recommendedTreatment: string,
    treatmentRisks: string,
    treatmentBenefits: string,
    prognosisWithTreatment: string,
    prognosisWithoutTreatment: string)

  /** The stop reasons the round record documents; nothing checks a judge's reply against them. */
  const STOP_REASONS: set<string> := {"patient_left", "patient_accepted", "max_rounds_reached"}

  /** Scores and stop decision for one round. Scores are exact rationals here. */
  datatype RoundEvaluation = RoundEvaluation(
    roundNumber: int,
    criteriaEvaluations: seq<CriterionEvaluation>,
    empathyScore: real,
    persuasionScore: real,
    safetyScore: real,
    patientStateChange: string,
    shouldStop: bool,
    stopReason: Option<string>)

  /** A score on the 0-10 scale the round record uses. */
  predicate OnTenScale(x: real) {
    0.0 <= x <= 10.0
  }

  datatype Speaker = Doctor | Patient

  datatype DialogueTurn = DialogueTurn(
    turnNumber: int,
    speaker: Speaker,
    message: string,
    timestamp: string,
    roundEvaluation: Option<RoundEvaluation>)

  datatype DialogueSession = DialogueSession(
    sessionId: string,
    personaId: string,
    doctorAgentUrl: string,
    startTime: string,
    endTime: Option<string>,
    turns: seq<DialogueTurn>,
    totalRounds: int,
    finalOutcome: Option<string>,
    stopReason: Option<string>)

  /** A session as created, with every defaulted field at its default. */
  function NewDialogueSession(sessionId: string, personaId: string, doctorAgentUrl: string, startTime: string): (s: DialogueSession)
    ensures s.sessionId == sessionId && s.personaId == personaId
    ensures s.doctorAgentUrl == doctorAgentUrl && s.startTime == startTime
    ensures s.turns == [] && s.totalRounds == 0
    ensures s.endTime.None? && s.finalOutcome.None? && s.stopReason.None?
  {
    DialogueSession(sessionId, personaId, doctorAgentUrl, startTime, None, [], 0, None, None)
  }

  datatype PerformanceReport = PerformanceReport(
    sessionId: string,
    finalOutcome: string,
    totalRounds: int,
    roundScores: seq<RoundEvaluation>,
    overallEmpathy: real,
    overallPersuasion: real,
    overallSafety: real,
    aggregateScore: real,
    strengths: seq<string>,
    weaknesses: seq<string>,
    keyMoments: seq<string>,
    improvementRecommendations: seq<string>,
    alternativeApproaches: seq<string>,
    evaluationSummary: string)

  /** Arithmetic mean of a list of scores (0 for an empty list). */
  function Mean(xs: seq<real>): real {
    if xs == [] then 0.0 else Sum(xs) / (|xs| as real)
  }

  function Sum(xs: seq<real>): real {
    if xs == [] then 0.0 else xs[0] + Sum(xs[1..])
  }

  lemma {:induction false} SumBounds(xs: seq<real>)
    requires forall i :: 0 <= i < |xs| ==> OnTenScale(xs[i])
    ensures 0.0 <= Sum(xs) <= 10.0 * (|xs| as real)
  {
    if xs != [] {
      SumBounds(xs[1..]);
    }
  }

  /** A mean of 0-10 scores is itself on the 0-10 scale, as the report's overall metrics are documented. */
  lemma MeanOnTenScale(xs: seq<real>)
    requires forall i :: 0 <= i < |xs| ==> OnTenScale(xs[i])
    ensures OnTenScale(Mean(xs))
  {
    if xs != [] {
      SumBounds(xs);
      var n := |xs| as real;
      assert Sum(xs) / n <= 10.0 by {
        assert Sum(xs) <= 10.0 * n;
      }
    }
  }

  /** Empathy scores of a list of rounds, in order. */
  function EmpathyScores(rounds: seq<RoundEvaluation>): (xs: seq<real>)
    ensures |xs| == |rounds| && forall i :: 0 <= i < |rounds| ==> xs[i] == rounds[i].empathyScore
  {
    seq(|rounds|, i requires 0 <= i < |rounds| => rounds[i].empathyScore)
  }

  /** Overall empathy over rounds whose empathy scores are on the 0-10 scale, as every
      assembled round's are, lies on the 0-10 scale. */
  lemma OverallEmpathyOnTenScale(rounds: seq<RoundEvaluation>)
    requires forall i :: 0 <= i < |rounds| ==> OnTenScale(rounds[i].empathyScore)
    ensures OnTenScale(Mean(EmpathyScores(rounds)))
  {
    MeanOnTenScale(EmpathyScores(rounds));
  }

  datatype MedicalEvalResult = MedicalEvalResult(
    assessmentId: string,
    doctorAgentUrl: string,
    timestamp: string,
    sessions: seq<DialogueSession>,
    reports: seq<PerformanceReport>,
    meanAggregateScore: real,
    overallSummary: string)

  // ---------------------------------------------------------------- bounded retry

  /** The first attempt in [from, n) that `ok` accepts, if any: the search behind both retry
      loops, the judge's and the patient's. */
  function FirstAccepted(ok: nat -> bool, from: nat, n: int): (r: Option<nat>)
    ensures r.Some? ==> from <= r.value < n && ok(r.value)
    ensures r.Some? ==> forall j :: from <= j < r.value ==> !ok(j)
    ensures r.None? ==> forall j :: from <= j < n ==> !ok(j)
    decreases n - from
  {
    if n <= from then None
    else if ok(from) then Some(from)
    else FirstAccepted(ok, from + 1, n)
  }

  /** An accepted attempt after only rejected ones is the one found. */
  lemma {:induction false} FirstAcceptedAt(ok: nat -> bool, from: nat, k: nat, n: int)
    requires from <= k < n && ok(k)
    requires forall j :: from <= j < k ==> !ok(j)
    ensures FirstAccepted(ok, from, n) == Some(k)
    decreases k - from
  {
    if from < k {
      FirstAcceptedAt(ok, from + 1, k, n);
    }
  }

  /** When no attempt in range is accepted, none is found. */
  lemma {:induction false} NoneAccepted(ok: nat -> bool, from: nat, n: int)
    requires forall j :: from <= j < n ==> !ok(j)
    ensures FirstAccepted(ok, from, n).None?
    decreases n - from
  {
    if from < n {
      NoneAccepted(ok, from + 1, n);
    }
  }
}
