/**
 * Building a patient: the mapping from persona codes to names, the roleplay footer added to
 * the generated character description, and the clinical information derived from the full
 * background, which is all the doctor is told. The two generation calls are oracles.
 */
module PatientConstruction {
  import opened Wrappers
  import opened Strings
  import opened Common
  import opened Personas

  // ---------------------------------------------------------------- codes to names

  /** The gender and medical case named by parsed persona components: no gender without a
      gender code. */
  function PersonaGender(parts: PersonaParts): Option<string> {
    match parts.genderCode
    case None => None
    case Some(code) => Some(GenderName(code))
  }

  /** On valid components the names are exactly the documented ones, and distinct codes give
      distinct names. */
  lemma NamesOfCodes(parts: PersonaParts)
    requires ValidParts(parts)
    ensures PersonaGender(parts).None? <==> parts.genderCode.None?
    ensures PersonaGender(parts) == Some("male") <==> parts.genderCode == Some("M")
    ensures PersonaGender(parts) == Some("female") <==> parts.genderCode == Some("F")
    ensures CaseName(parts.caseCode) == "pneumothorax" <==> parts.caseCode == "PNEUMO"
    ensures CaseName(parts.caseCode) == "lung_cancer" <==> parts.caseCode == "LUNG"
  {
    assert "male" != "female";
    assert "pneumothorax" != "lung_cancer";
  }

  lemma NamesInjective(p: PersonaParts, q: PersonaParts)
    requires ValidParts(p) && ValidParts(q)
    requires PersonaGender(p) == PersonaGender(q) && CaseName(p.caseCode) == CaseName(q.caseCode)
    ensures p.genderCode == q.genderCode && p.caseCode == q.caseCode
  {
    NamesOfCodes(p);
    NamesOfCodes(q);
  }

  // ---------------------------------------------------------------- the roleplay footer

  const ROLEPLAY_FOOTER: string :=
    "\n\n---\nROLEPLAY INSTRUCTIONS:\nYou are roleplaying this patient character in a medical consultation with a doctor. Stay fully in character throughout the entire conversation. Respond naturally as this patient would, expressing their concerns, asking questions, and reacting to the doctor's explanations based on your personality, background, and medical situation. Do not break character or discuss the roleplay itself."

  /** Why a persona could not be built. */
  datatype ConstructionError =
    | InvalidPersona(reason: ParseError)   // the identifier does not parse
    | NoBackground                         // the structured generation gave no background
    | NoPromptText                         // the prompt generation gave no content

  /** The end of `_build_system_prompt_from_background`: the generated text with the roleplay
      footer appended; content that is None cannot be appended to. */
  function WithRoleplayFooter(generated: Option<string>): Result<string, ConstructionError> {
    match generated
    case None => Err(NoPromptText)
    case Some(text) => Ok(text + ROLEPLAY_FOOTER)
  }

  /** The generated text, recovered from a prompt that ends with the footer. */
  function WithoutRoleplayFooter(prompt: string): string
    requires |prompt| >= |ROLEPLAY_FOOTER|
  {
    prompt[..|prompt| - |ROLEPLAY_FOOTER|]
  }

  /** The prompt always ends with the footer, preceded by exactly the generated text. */
  lemma FooterAppended(generated: Option<string>)
    ensures WithRoleplayFooter(generated).Ok? <==> generated.Some?
    ensures WithRoleplayFooter(generated).Ok? ==>
              var prompt := WithRoleplayFooter(generated).value;
              && |prompt| == |generated.value| + |ROLEPLAY_FOOTER|
              && prompt[|prompt| - |ROLEPLAY_FOOTER|..] == ROLEPLAY_FOOTER
              && WithoutRoleplayFooter(prompt) == generated.value
  {
    if generated.Some? {
      var prompt := generated.value + ROLEPLAY_FOOTER;
      assert prompt[..|generated.value|] == generated.value;
      assert prompt[|generated.value|..] == ROLEPLAY_FOOTER;
    }
  }

  // ---------------------------------------------------------------- clinical information

  /** `_derive_clinical_info`: the clinical fields of the background, with the gender only
      when asked for. */
  function DeriveClinicalInfo(background: PatientBackground, includeGender: bool): PatientClinicalInfo {
    PatientClinicalInfo(
      age := background.age,
      gender := if includeGender then Some(background.gender) else None,
      medicalCase := background.medicalCase,
      diagnosis := background.diagnosis,
      recommendedTreatment := background.recommendedTreatment,
      treatmentRisks := background.treatmentRisks,
      treatmentBenefits := background.treatmentBenefits,
      prognosisWithTreatment := background.prognosisWithTreatment,
      prognosisWithoutTreatment := background.prognosisWithoutTreatment)
  }

  /** The clinical fields are copied unchanged, and the gender is present exactly when asked for. */
  lemma ClinicalInfoCopies(background: PatientBackground, includeGender: bool)
    ensures var info := DeriveClinicalInfo(background, includeGender);
            && info.age == background.age
            && info.medicalCase == background.medicalCase
            && info.diagnosis == background.diagnosis
            && info.recommendedTreatment == background.recommendedTreatment
            && info.treatmentRisks == background.treatmentRisks
            && info.treatmentBenefits == background.treatmentBenefits
            && info.prognosisWithTreatment == background.prognosisWithTreatment
            && info.prognosisWithoutTreatment == background.prognosisWithoutTreatment
            && (info.gender.Some? <==> includeGender)
            && (includeGender ==> info.gender == Some(background.gender))
  {
  }

  /** Two backgrounds that agree on the clinical fields (and on the gender, when it is
      included) give the same clinical information: symptoms, occupation, family, lifestyle,
      values and concerns never reach the doctor. */
  lemma ClinicalInfoHidesPrivateFields(b1: PatientBackground, b2: PatientBackground, includeGender: bool)
    requires b1.age == b2.age && b1.medicalCase == b2.medicalCase && b1.diagnosis == b2.diagnosis
    requires b1.recommendedTreatment == b2.recommendedTreatment
    requires b1.treatmentRisks == b2.treatmentRisks && b1.treatmentBenefits == b2.treatmentBenefits
    requires b1.prognosisWithTreatment == b2.prognosisWithTreatment
    requires b1.prognosisWithoutTreatment == b2.prognosisWithoutTreatment
    requires includeGender ==> b1.gender == b2.gender
    ensures DeriveClinicalInfo(b1, includeGender) == DeriveClinicalInfo(b2, includeGender)
  {
  }

  // ---------------------------------------------------------------- the whole construction

  /** A constructed patient: the persona, its full background and the doctor's clinical view. */
  datatype ConstructedPatient = ConstructedPatient(
    persona: PatientPersona, background: PatientBackground, clinicalInfo: PatientClinicalInfo)

  /** `construct_patient_persona`: parse the identifier, generate a background for the named
      type, gender and case, turn it into a character description with the roleplay footer, and
      derive the clinical information, with the gender only when the identifier fixed one.
      `generateBackground` maps (type, gender, case) to the parsed background, if any;
      `writePrompt` maps (background, type) to the generated text, if any. */
  function ConstructPatientPersona(
    personaId: string,
    generateBackground: (string, Option<string>, string) -> Option<PatientBackground>,
    writePrompt: (PatientBackground, string) -> Option<string>): Result<ConstructedPatient, ConstructionError>
  {
    match ParsePersonaId(personaId)
    case Err(e) => Err(InvalidPersona(e))
    case Ok(parts) =>
      var gender := PersonaGender(parts);
      var medicalCase := CaseName(parts.caseCode);
      match generateBackground(parts.mbti, gender, medicalCase)
      case None => Err(NoBackground)
      case Some(background) =>
        match WithRoleplayFooter(writePrompt(background, parts.mbti))
        case Err(e) => Err(e)
        case Ok(prompt) =>
          var persona := PatientPersona(personaId, parts.mbti, Some(background.gender), medicalCase, prompt);
          Ok(ConstructedPatient(persona, background, DeriveClinicalInfo(background, gender.Some?)))
  }

  /** What a construction yields: it fails on an identifier that does not parse, with the
      parse error; after a good parse it succeeds exactly when both generations give a result,
      and otherwise reports the first that did not. A constructed persona carries the
      identifier, its type, the background's gender and the case name; its description is the
      generated text followed by the roleplay footer; and the doctor sees the gender exactly
      when the identifier has three parts, that is, a gender code. */
  lemma ConstructionOutcome(
    personaId: string,
    generateBackground: (string, Option<string>, string) -> Option<PatientBackground>,
    writePrompt: (PatientBackground, string) -> Option<string>)
    ensures var r := ConstructPatientPersona(personaId, generateBackground, writePrompt);
            && (ParsePersonaId(personaId).Err? ==> r == Err(InvalidPersona(ParsePersonaId(personaId).error)))
            && (ParsePersonaId(personaId).Ok? ==>
                  var parts := ParsePersonaId(personaId).value;
                  var background := generateBackground(parts.mbti, PersonaGender(parts), CaseName(parts.caseCode));
                  && (r.Ok? <==> background.Some? && writePrompt(background.value, parts.mbti).Some?)
                  && (background.None? ==> r == Err(NoBackground))
                  && (background.Some? && writePrompt(background.value, parts.mbti).None? ==> r == Err(NoPromptText)))
            && (r.Ok? ==>
                  var parts := ParsePersonaId(personaId).value;
                  var c := r.value;
                  && ParsePersonaId(personaId).Ok?
                  && Some(c.background) == generateBackground(parts.mbti, PersonaGender(parts), CaseName(parts.caseCode))
                  && c.persona.personaId == personaId
                  && c.persona.mbtiType == parts.mbti && parts.mbti in MBTI_TYPES
                  && c.persona.gender == Some(c.background.gender)
                  && c.persona.medicalCase == CaseName(parts.caseCode)
                  && writePrompt(c.background, parts.mbti).Some?
                  && c.persona.characterDescription == writePrompt(c.background, parts.mbti).value + ROLEPLAY_FOOTER
                  && c.clinicalInfo == DeriveClinicalInfo(c.background, parts.genderCode.Some?)
                  && (c.clinicalInfo.gender.Some? <==> |Split(personaId, "_")| == 3))
  {
  }
}
