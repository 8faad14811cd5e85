# OSCE medical-dialogue judge: a verified model of its deterministic core

The system evaluates a "doctor" agent in a simulated consultation. A "patient" agent is built
from a persona (an MBTI personality type, an optional gender and a medical case). The patient
replies in a "Say: … Think: … Do: …" format, and the doctor must never see the Think part. After
each round a judge scores the doctor against a rubric of criteria in three categories (Empathy,
Persuasion, Safety) and decides whether the dialogue stops. Every language-model call is retried
a bounded number of times with exponential backoff.

This project models the deterministic logic around those calls and proves its properties:

- `Wrappers` (wrappers.dfy): `Option` and `Result`.
- `Strings` (strings.dfy): the Python string operations the core relies on. These are
  `strip` (with Python's whitespace set), `split`, `join`, `replace` (a left-to-right scan over non-overlapping occurrences),
  `in`, ASCII `upper`/`lower` and `str(int)`, together with lemmas about them.
- `Common` (common.dfy): the shared records and literal types. It covers criterion verdicts,
  personas, backgrounds, clinical information, round evaluations, turns, sessions and reports.
  It also holds the first-accepted-attempt search behind both retry loops.
- `Personas` (persona_manager.dfy): the persona identifier grammar `MBTI[_G]_CASE`, the
  template file names, the enumeration of all identifiers, and keyword expansion.
- `Scoring` (per_round_scoring.dfy):
  - category scores from criterion verdicts;
  - the criteria text of the judge prompt;
  - the bounded retry with backoff;
  - the assembly of a round evaluation.
- `Roleplay` (roleplay_context_loader.dfy): mapping CSV rows to chat messages, and filling the
  seven placeholders of the role-play priming template.
- `PatientSimulator` (patient_agent.dfy): hiding the Think section, the
  fallback replies, and the `PatientAgent` class. The class holds the append-only dialogue
  history, builds the message list, and runs the retry/fallback of `respond`.
- `PatientConstruction` (patient_constructor.dfy):
  - the code-to-name mapping;
  - the roleplay footer of the generated character description;
  - the clinical information the doctor is given, which is a projection of the full background.

Language-model calls are oracles: total functions from the call's inputs and the attempt number
to what the call gave (an exception, or a value that may be None). `random.choice` is an
arbitrary pick (`:|`) from the same list. Scores are exact reals.

## Model

| member | source | states |
|---|---|---|
| Common.NewDialogueSession | scenarios/medical_dialogue/green_agents/common.py:110-120 | a new session keeps the given identifiers and start time, and has no turns, zero rounds, no end time, no final outcome and no stop reason |
| Common.SumBounds | scenarios/medical_dialogue/green_agents/common.py:130-135 | the sum of n scores on the 0-10 scale lies between 0 and 10·n |
| Common.MeanOnTenScale | scenarios/medical_dialogue/green_agents/common.py:133-135 | the mean of scores on the 0-10 scale is itself on the 0-10 scale |
| Common.OverallEmpathyOnTenScale | scenarios/medical_dialogue/green_agents/common.py:83-98 | the mean empathy over rounds whose empathy scores lie within 0-10, which every assembled round's does (`Scoring.AssembleRound`), is within 0-10; nothing is demanded of the stop reason |
| Personas.ParsePersonaId | scenarios/medical_dialogue/green_agents/persona_manager.py:44-85 | an id whose number of "_"-parts is neither 2 nor 3 is rejected as badly formed; in the 3-part form, a gender code that is not M or F after upper-casing is rejected; a success gives an MBTI type from the 16, a case PNEUMO or LUNG and a gender M or F, all upper-cased, with a gender code exactly when there are three parts |
| Personas.ParseFormatId | scenarios/medical_dialogue/green_agents/persona_manager.py:44-85 | writing valid components as an id and parsing it gives back exactly those components |
| Personas.ParseThenFormat | scenarios/medical_dialogue/green_agents/persona_manager.py:44-85 | an id that parses is, once upper-cased, the id its components are written as |
| Personas.FormatIdInjective | scenarios/medical_dialogue/green_agents/persona_manager.py:154-160 | distinct valid components give distinct ids |
| Personas.PathsFor | scenarios/medical_dialogue/green_agents/persona_manager.py:99-114 | the mbti file is the lower-cased type plus ".txt"; the case file is pneumothorax.txt exactly for PNEUMO and lung_cancer.txt otherwise; the gender file is absent exactly when there is no gender code, and is male.txt exactly for M and female.txt otherwise |
| Personas.GetPromptPaths | scenarios/medical_dialogue/green_agents/persona_manager.py:87-114 | fails exactly when the id does not parse, with the parse error; otherwise gives the files of the parsed components |
| Personas.MbtiFileNamesType | scenarios/medical_dialogue/green_agents/persona_manager.py:97-103 | the mbti file name, without ".txt" and upper-cased, is the parsed type |
| Personas.GetAllPersonaIds | scenarios/medical_dialogue/green_agents/persona_manager.py:142-161 | the nested loops produce exactly the enumeration: type outermost, then case, then gender |
| Personas.AppendMbtiIds | scenarios/medical_dialogue/green_agents/persona_manager.py:154-160 | one pass of the outer loop appends exactly the identifiers of that MBTI type, pneumothorax before lung cancer |
| Personas.AppendCaseIds | scenarios/medical_dialogue/green_agents/persona_manager.py:155-160 | one pass of the case loop appends the male then the female identifier with gender, or the single gender-less identifier without |
| Personas.AllPersonaIdsProperties | scenarios/medical_dialogue/green_agents/persona_manager.py:142-161 | there are 64 ids with genders and 32 without, all distinct; each parses, is written back unchanged, and has a gender code exactly when genders are included |
| Personas.IdsOverShape | scenarios/medical_dialogue/green_agents/persona_manager.py:153-161 | over distinct types, the ids are distinct, number four (or two) per type, and parse back to a listed type and case |
| Personas.EnumerationOrder | scenarios/medical_dialogue/green_agents/persona_manager.py:154-160 | the enumeration opens with INTJ_M_PNEUMO, INTJ_F_PNEUMO, INTJ_M_LUNG, INTJ_F_LUNG (without genders: INTJ_PNEUMO, INTJ_LUNG) |
| Personas.ExpandPersonaIds | scenarios/medical_dialogue/green_agents/persona_manager.py:163-190 | "all" gives every gendered id; otherwise "all_no_gender" gives every id without gender; otherwise "random" gives one id that parses with a gender; otherwise "random_no_gender" gives one id that parses without one; otherwise the list is returned unchanged |
| Scoring.InCategory | scenarios/medical_dialogue/green_agents/per_round_scoring.py:369 | the filtered list is no longer than the input and holds only evaluations of the category |
| Scoring.InCategoryConcat | scenarios/medical_dialogue/green_agents/per_round_scoring.py:369 | filtering a concatenation is concatenating the filtered parts, in order |
| Scoring.MetAtMostActive | scenarios/medical_dialogue/green_agents/per_round_scoring.py:372-373 | no more evaluations are met than are active (not "not_relevant") |
| Scoring.RatioBounds | scenarios/medical_dialogue/green_agents/per_round_scoring.py:376-377 | met/active lies in [0, 1], and ·10 gives 10 exactly when all are met and 0 exactly when none is |
| Scoring.CategoryScore | scenarios/medical_dialogue/green_agents/per_round_scoring.py:367-380 | the percentage of met criteria among the active ones of a category, on the 0-10 scale; its properties are stated by ScoreOnTenScale, ScoreExtremes, NeutralScore and OtherCategoriesIgnored |
| Scoring.ScoreOnTenScale | scenarios/medical_dialogue/green_agents/per_round_scoring.py:367-380 | every category score lies in [0, 10] |
| Scoring.NeutralScore | scenarios/medical_dialogue/green_agents/per_round_scoring.py:376-380 | a category with no active evaluation (including none at all) scores exactly 5 |
| Scoring.ScoreExtremes | scenarios/medical_dialogue/green_agents/per_round_scoring.py:376-377 | with some active evaluation, the score is 10 exactly when every active one is met and 0 exactly when none is met |
| Scoring.OtherCategoriesIgnored | scenarios/medical_dialogue/green_agents/per_round_scoring.py:367-377 | evaluations of other categories placed before or after do not change a category's score |
| Scoring.ScoreKeysAreLowerCase | scenarios/medical_dialogue/green_agents/per_round_scoring.py:367-382 | the score keys are the lower-cased category names |
| Scoring.CalculateScoresFromCriteria | scenarios/medical_dialogue/green_agents/per_round_scoring.py:357-386 | the result has exactly the keys empathy, persuasion and safety; each value is that category's score; all values lie in [0, 10] |
| Scoring.ScoresOfAllCategories | scenarios/medical_dialogue/green_agents/per_round_scoring.py:365-386 | the three loop iterations give the three keys with the category scores, all in [0, 10] |
| Scoring.CriteriaOf | scenarios/medical_dialogue/green_agents/per_round_scoring.py:162 | only criteria of the requested category are kept |
| Scoring.CriteriaOfConcat | scenarios/medical_dialogue/green_agents/per_round_scoring.py:162 | the selection of a concatenation is the concatenation of the selections, in load order |
| Scoring.FormatCriteriaForPrompt | scenarios/medical_dialogue/green_agents/per_round_scoring.py:160-171 | the loop builds the criteria text: the header and the category's criteria lines, joined by newlines |
| Scoring.LinesOfAt | scenarios/medical_dialogue/green_agents/per_round_scoring.py:166-169 | n criteria give 3·n lines, and line 3k+j is line j of criterion k |
| Scoring.PromptShape | scenarios/medical_dialogue/green_agents/per_round_scoring.py:160-171 | the text has one header line first, then exactly three lines per criterion of the category, in load order |
| Scoring.PromptWithoutCriteria | scenarios/medical_dialogue/green_agents/per_round_scoring.py:162-171 | with no criterion of the category, the text is the header alone |
| Common.FirstAccepted | scenarios/medical_dialogue/green_agents/per_round_scoring.py:225-242 | the attempt found is the first in range that is accepted; none is found only if no attempt in range is accepted |
| Scoring.Backoff | scenarios/medical_dialogue/green_agents/per_round_scoring.py:251-255 | the k-th sleep (from 0) is retry_delay·2^k |
| Scoring.RetryStructured | scenarios/medical_dialogue/green_agents/per_round_scoring.py:222-261 | at most max_retries calls; the result is the first parsed value, after exactly first+1 calls; otherwise all max_retries calls are made and the failure names the last error; the sleeps follow the backoff, with none after the last call |
| Common.FirstAcceptedAt | scenarios/medical_dialogue/green_agents/per_round_scoring.py:225-242 | an accepted attempt after only rejected ones is the one found |
| Common.NoneAccepted | scenarios/medical_dialogue/green_agents/per_round_scoring.py:257-261 | when no attempt in range is accepted, none is found |
| Scoring.EvaluateCategory | scenarios/medical_dialogue/green_agents/per_round_scoring.py:173-263 | a category's verdicts are the retry outcome of the judge asked with that category's criteria text |
| Scoring.AssembleRound | scenarios/medical_dialogue/green_agents/per_round_scoring.py:138-150 | the round carries the round number and the verdicts, copies the patient-state change, stop flag and stop reason; its empathy, persuasion and safety scores are the category scores of the verdicts for Empathy, Persuasion and Safety, and so lie in [0, 10] |
| Scoring.RetryOutcome | scenarios/medical_dialogue/green_agents/per_round_scoring.py:222-261 | the first parsed value of at most max_retries attempts, or the failure naming the last error; RetryStructured proves the retry loop computes it, and FirstAccepted, FirstAcceptedAt and NoneAccepted state the search |
| Scoring.EvaluateRound | scenarios/medical_dialogue/green_agents/per_round_scoring.py:85-158 | the first failing category, in the order Empathy, Persuasion, Safety, and then the stop assessment, decides the error; otherwise the round is assembled from the verdicts concatenated in that order |
| Scoring.CollectSnoc | scenarios/medical_dialogue/green_agents/per_round_scoring.py:117-125 | one more category extends the collected verdicts by its own, or fails with its error |
| Scoring.CollectCategories | scenarios/medical_dialogue/green_agents/per_round_scoring.py:115-125 | the evaluations of the categories in order, stopping at the first category that fails; stated by CollectThree, CollectSnoc, CollectStopsAtFailure and EvaluateRound |
| Scoring.CollectThree | scenarios/medical_dialogue/green_agents/per_round_scoring.py:115-125 | the three categories give the Empathy, Persuasion and Safety verdicts concatenated in that order, or the first failure |
| Scoring.CollectStopsAtFailure | scenarios/medical_dialogue/green_agents/per_round_scoring.py:117-125 | a failing category ends the collection with its error |
| Roleplay.RowMessages | scenarios/medical_dialogue/green_agents/roleplay_context_loader.py:51-61 | a row gives at most one message, never a system message |
| Roleplay.TemplateOfRow | scenarios/medical_dialogue/green_agents/roleplay_context_loader.py:52-61 | a row whose trimmed, upper-cased role is USER or ASSISTANT gives one message with that role and the trimmed text; any other role gives none |
| Roleplay.TemplateOf | scenarios/medical_dialogue/green_agents/roleplay_context_loader.py:43-64 | the messages of the USER and ASSISTANT rows in row order; stated by LoadRoleplayTemplate, TemplateOfRow, TemplateRoles, TemplateTrimmed and TemplateConcat |
| Roleplay.LoadRoleplayTemplate | scenarios/medical_dialogue/green_agents/roleplay_context_loader.py:31-64 | a missing file gives no messages; otherwise the loop gives the messages of the rows, in order |
| Roleplay.AppendRow | scenarios/medical_dialogue/green_agents/roleplay_context_loader.py:51-61 | a USER or ASSISTANT row appends its trimmed message under that role; any other row appends nothing |
| Roleplay.TemplateConcat | scenarios/medical_dialogue/green_agents/roleplay_context_loader.py:51-61 | the messages of concatenated rows are the concatenated messages |
| Roleplay.TemplateRoles | scenarios/medical_dialogue/green_agents/roleplay_context_loader.py:55-61 | there are no more messages than rows, and each is a user or assistant message |
| Roleplay.TemplateTrimmed | scenarios/medical_dialogue/green_agents/roleplay_context_loader.py:53 | no message text starts or ends with whitespace |
| Roleplay.Values | scenarios/medical_dialogue/green_agents/roleplay_context_loader.py:107-115 | there is one value per placeholder, in the replacement order: the role core description for the first, then the acknowledgement phrase, the rules and constraints, the confirmation phrase, the say, think and do examples |
| Roleplay.PlaceholdersOpenWithBrace | scenarios/medical_dialogue/green_agents/roleplay_context_loader.py:107-115 | every placeholder is non-empty and opens with a brace |
| Roleplay.Fill | scenarios/medical_dialogue/green_agents/roleplay_context_loader.py:104-118 | the seven placeholders replaced one after the other; FillPlaceholders, FillUnchanged, MixedPlaceholdersSubstituted, PlaceholderSubstituted and PlaceholderSubstitutedOnce state what it gives |
| Roleplay.FillUnchanged | scenarios/medical_dialogue/green_agents/roleplay_context_loader.py:117-118 | content without any placeholder is left unchanged |
| Roleplay.FillFrom | scenarios/medical_dialogue/green_agents/roleplay_context_loader.py:117-118 | once no placeholder is left, the remaining replacements change nothing |
| Roleplay.PlaceholderSubstituted | scenarios/medical_dialogue/green_agents/roleplay_context_loader.py:107-118 | for every one of the seven placeholders and any number of its occurrences, text made of brace-free pieces with that placeholder between them is filled into the same pieces with its value between them, when the value holds no opening brace |
| Roleplay.MixedPlaceholdersSubstituted | scenarios/medical_dialogue/green_agents/roleplay_context_loader.py:107-118 | for any sequence of placeholders, each any of the seven and in any order: brace-free segments with those placeholders between them (`segs[0] + P[ks[0]] + segs[1] + …`) are filled into the same segments with the matching values between them (`segs[0] + V[ks[0]] + segs[1] + …`), when none of those values holds an opening brace |
| Roleplay.SlotsStep | scenarios/medical_dialogue/green_agents/roleplay_context_loader.py:117-118 | one replacement, of the n-th placeholder, turns exactly its own occurrences into its value among brace-free segments and the other placeholders' slots, filled or not |
| Roleplay.SlotsFilled | scenarios/medical_dialogue/green_agents/roleplay_context_loader.py:117-118 | after the first n replacements, the slots of those n placeholders hold their values and every other slot still holds its placeholder |
| Roleplay.SlotReplaced | scenarios/medical_dialogue/green_agents/roleplay_context_loader.py:118 | replacing one placeholder keeps a brace-free segment, turns the slot after it into that slot with the placeholder filled, and goes on in the text after |
| Strings.ReplaceSplitJoin | scenarios/medical_dialogue/green_agents/roleplay_context_loader.py:118 | the left-to-right scan of `str.replace` agrees with cutting the text at the occurrences of the pattern and gluing the pieces back with the value |
| Strings.ReplaceAt | scenarios/medical_dialogue/green_agents/roleplay_context_loader.py:118 | an occurrence of the pattern before which none starts becomes the value, the text before it is kept and the scan goes on after it |
| Strings.ReplaceKeep | scenarios/medical_dialogue/green_agents/roleplay_context_loader.py:118 | text in which no occurrence of the pattern starts is kept as it is |
| Strings.ReplaceAbsent | scenarios/medical_dialogue/green_agents/roleplay_context_loader.py:118 | text without the pattern is left unchanged |
| Roleplay.PlaceholderSubstitutedOnce | scenarios/medical_dialogue/green_agents/roleplay_context_loader.py:107-118 | a placeholder between brace-free texts is replaced by its own value and the surrounding text is kept |
| Roleplay.OtherPlaceholderAbsent | scenarios/medical_dialogue/green_agents/roleplay_context_loader.py:107-115 | text whose every opening brace opens one placeholder holds no other placeholder, since no placeholder name holds a brace and no two are equal |
| Roleplay.FormatRoleplayContext | scenarios/medical_dialogue/green_agents/roleplay_context_loader.py:66-136 | fails with "Role-play template messages could not be loaded." exactly when the template is empty; otherwise gives the fixed role-play system prompt and one message per template message, with the same role in the same order and the placeholders filled |
| Roleplay.FormatMessages | scenarios/medical_dialogue/green_agents/roleplay_context_loader.py:101-130 | each user or assistant template message gives one message with the same role, in the same place, its content filled |
| Roleplay.FillPlaceholders | scenarios/medical_dialogue/green_agents/roleplay_context_loader.py:104-118 | the replacement loop gives the content with the seven placeholders replaced in order |
| PatientSimulator.HideSection | scenarios/medical_dialogue/green_agents/patient_agent.py:39-52 | the split-based removal of the hidden section; HideSectionIsVisibleReply and HiddenMarkerRemoved state what it gives |
| PatientSimulator.ExtractSpokenDialogue | scenarios/medical_dialogue/green_agents/patient_agent.py:25-52 | the reply with the Think section removed; SpokenDialogueShape and ThinkHidden state what it gives |
| PatientSimulator.HideSectionIsVisibleReply | scenarios/medical_dialogue/green_agents/patient_agent.py:39-52 | the split-based filter gives the text before the first hidden marker, followed (when the stretch up to the next hidden marker holds the shown marker) by that marker and the text up to the next one, trimmed; with no hidden marker, the trimmed input |
| PatientSimulator.HiddenMarkerRemoved | scenarios/medical_dialogue/green_agents/patient_agent.py:39-49 | the hidden marker never occurs in the output, when neither marker opens with a character of the other |
| PatientSimulator.ThinkHidden | scenarios/medical_dialogue/green_agents/patient_agent.py:25-52 | the spoken dialogue never contains "Think:" |
| PatientSimulator.SpokenDialogueShape | scenarios/medical_dialogue/green_agents/patient_agent.py:38-52 | the spoken dialogue is the positional visible reply; without "Think:", it is the input stripped |
| PatientSimulator.FallbacksVisible | scenarios/medical_dialogue/green_agents/patient_agent.py:55-64 | there are eight fallback replies and none is blank |
| PatientSimulator.HistoryPassedWhole | scenarios/medical_dialogue/green_agents/patient_agent.py:177-187 | history made of user and assistant turns is passed on whole and in order |
| PatientSimulator.ConversationMessages | scenarios/medical_dialogue/green_agents/patient_agent.py:160-187 | the message list sent to the model; ConversationShape, HistoryPassedWhole and PatientAgent.BuildMessages state its shape |
| PatientSimulator.ConversationShape | scenarios/medical_dialogue/green_agents/patient_agent.py:161-187 | the message list has exactly one system message, first: the role-play prompt in role-play mode, else the character description; the priming messages follow only in role-play mode; the history closes the list, in order |
| PatientSimulator.HistoryExtended | scenarios/medical_dialogue/green_agents/patient_agent.py:155-158 | appending a user turn and a non-blank assistant turn keeps the history alternating and its patient turns non-blank |
| PatientSimulator.PatientAgent.constructor | scenarios/medical_dialogue/green_agents/patient_agent.py:75-111 | a new agent has an empty history and the given configuration and preamble |
| PatientSimulator.PatientAgent.Reset | scenarios/medical_dialogue/green_agents/patient_agent.py:135-138 | the history is empty afterwards |
| PatientSimulator.PatientAgent.GetDialogueHistory | scenarios/medical_dialogue/green_agents/patient_agent.py:248-255 | returns the agent's history, entry for entry and well formed; adding or removing entries in the returned list does not change the agent |
| PatientSimulator.PatientAgent.BuildMessages | scenarios/medical_dialogue/green_agents/patient_agent.py:160-187 | the appending loop builds the message list of the current history |
| PatientSimulator.RequestReply | scenarios/medical_dialogue/green_agents/patient_agent.py:189-228 | the reply is the content of the first of at most max_retries attempts that gives non-blank content; with none, it is one of the fallback replies; it is never blank |
| PatientSimulator.PatientAgent.Respond | scenarios/medical_dialogue/green_agents/patient_agent.py:140-246 | the history grows by exactly a user entry with the doctor's message and an assistant entry with the full reply, and earlier entries are kept; the reply is the one chosen for the message list with the doctor's message; the returned text is the spoken dialogue of that same reply; the history stays well formed |
| PatientSimulator.NewPatientAgent | scenarios/medical_dialogue/green_agents/patient_agent.py:75-133 | the agent keeps the given character description, retry count, retry delay and role-play flag, and starts with an empty history; in role-play mode with examples, construction fails with "Role-play template messages could not be loaded." exactly when the template is empty, and otherwise the agent gets the role-play system prompt and, as priming, the template messages in order with their roles kept and their placeholders filled (none a system message); without role-play mode or examples there is no role-play prompt and no priming |
| PatientConstruction.NamesOfCodes | scenarios/medical_dialogue/green_agents/patient_constructor.py:62-65 | M names male and F names female, no code names no gender; PNEUMO names pneumothorax and LUNG names lung_cancer |
| PatientConstruction.NamesInjective | scenarios/medical_dialogue/green_agents/patient_constructor.py:62-65 | distinct valid codes name distinct genders and cases |
| PatientConstruction.FooterAppended | scenarios/medical_dialogue/green_agents/patient_constructor.py:254-263 | the prompt is the generated text followed by the roleplay footer, so it ends with the footer and removing it gives back the text; content that is None gives an error |
| PatientConstruction.DeriveClinicalInfo | scenarios/medical_dialogue/green_agents/patient_constructor.py:265-289 | the clinical projection of a background; ClinicalInfoCopies and ClinicalInfoHidesPrivateFields state what it keeps and hides |
| PatientConstruction.ConstructPatientPersona | scenarios/medical_dialogue/green_agents/patient_constructor.py:42-100 | persona construction; ConstructionOutcome states its outcomes |
| PatientConstruction.ClinicalInfoCopies | scenarios/medical_dialogue/green_agents/patient_constructor.py:279-289 | age, case, diagnosis, treatment, risks, benefits and both prognoses are copied unchanged; the gender is present exactly when asked for, and is then the background's |
| PatientConstruction.ClinicalInfoHidesPrivateFields | scenarios/medical_dialogue/green_agents/patient_constructor.py:265-289 | backgrounds that agree on the clinical fields (and on gender when it is included) give the same clinical information, so symptoms, occupation, family, lifestyle, values and concerns never reach the doctor |
| PatientConstruction.ConstructionOutcome | scenarios/medical_dialogue/green_agents/patient_constructor.py:42-100 | an id that does not parse gives its parse error; after a good parse, construction succeeds exactly when the background generation and the prompt generation both give a result, and otherwise fails with NoBackground or NoPromptText, for the first that gave none; a persona carries the id, type, case name and background gender; its description is exactly the generated text followed by the roleplay footer; the clinical information includes the gender exactly when the id has a gender code |

## Left out

- Language-model calls are oracles. The prompt texts they receive are not modelled, except the criteria text of the judge: the system and user messages in `_evaluate_category`, `_evaluate_stop_condition` and the two patient-generation calls, and the doctor message and dialogue history handed to the judge. A call's inputs become the oracle's arguments, or are fixed inside the oracle.
- File reading is not modelled. The rubric CSV (`_load_criteria`) is given as a list of criteria. The prompt templates (`load_prompt_templates`, with its missing-file error) only reach the generation oracles. The role-play CSV is given as rows, or as none for a missing file.
- Roleplay.Cell: a cell absent from a short CSV row reads as empty text. Python's CSV reader would give None there, and `strip` on it would raise.
- `time.sleep` and logging are not modelled. The scoring retry returns its sleep durations instead of sleeping. The patient's retry applies the same backoff formula, and its sleeps and `last_error` (used only in a log line) are not modelled.
- PatientSimulator.PatientAgent.GetDialogueHistory: the source returns a shallow copy whose entries are the agent's own dictionaries, so editing an entry of the returned list edits the agent's history. History entries are values here, and that aliasing is not modelled.
- `random.choice` is an arbitrary choice from the same list. Uniformity is not modelled.
- `round(score, 2)` and float arithmetic are not modelled. Scores are exact reals.
- Case mapping is ASCII only. Python's full Unicode `upper`/`lower` also maps, for example, the dotless ı to I, so a few non-ASCII ids that Python accepts are rejected here.
- Scoring.ScoringEngine: `retryDelay` is a natural number. A negative delay would make the source's `time.sleep` raise after the first failure.
- Scoring.InCategory: its contract does not state that every evaluation of the category is kept; InCategoryConcat and OtherCategoriesIgnored state what the scores rely on.
- Scoring.CriteriaOf: its contract does not state that every criterion of the category is kept; CriteriaOfConcat states the order-preserving selection.
- PatientConstruction.ConstructionOutcome:
  - The character description is stored in the persona's `character_description` field. At patient_constructor.py:88-94 the source passes it as `system_prompt=`, a name the record (common.py:21-27) does not have. The model follows the record.
  - A structured generation that gives no background becomes an error. The source would raise when logging its fields.
- The comment at common.py:90 calls the scores "0-1 scale". The computation (per_round_scoring.py:377) and the field comments use 0-10, and the model follows them.
- The report's aggregate score (0-100) and overall means are produced by a report generator that is not part of this model; only the record and the 0-10 bound of a mean are. The round orchestrator and the task store are not part of this model either.
- The agent card helper (`medical_judge_agent_card`), the doctor agent and the debate agents are server configuration around external libraries and are not modelled.
