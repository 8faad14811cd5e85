/**
 * Persona identifiers `MBTI_G_CASE` (with gender) and `MBTI_CASE` (without):
 * parsing and validation, the prompt files an identifier selects, the
 * enumeration of every identifier and the expansion of the keywords
 * `all`, `all_no_gender`, `random` and `random_no_gender`.
 */
module Personas {
  import opened Wrappers
  import opened Strings

  /** The 16 personality types, in enumeration order. */
  const MBTI_TYPES: seq<string> := [
    "INTJ", "INTP", "ENTJ", "ENTP",
    "INFJ", "INFP", "ENFJ", "ENFP",
    "ISTJ", "ISFJ", "ESTJ", "ESFJ",
    "ISTP", "ISFP", "ESTP", "ESFP"]

  const GENDER_CODES: seq<string> := ["M", "F"]
  const CASE_CODES: seq<string> := ["PNEUMO", "LUNG"]

  /** The reasons `parse_persona_id` raises `ValueError`. */
  datatype ParseError =
    | InvalidGender(genderCode: string)
    | InvalidFormat(personaId: string)
    | InvalidMbti(mbti: string)
    | InvalidCase(caseCode: string)

  /** The components of a persona identifier. */
  datatype PersonaParts = PersonaParts(mbti: string, genderCode: Option<string>, caseCode: string)

  /** Components that name an existing persona. */
  predicate ValidParts(c: PersonaParts) {
    && c.mbti in MBTI_TYPES
    && c.caseCode in CASE_CODES
    && (c.genderCode.Some? ==> c.genderCode.value in GENDER_CODES)
  }

  /** The identifier built from components, as the enumeration writes it. */
  function FormatId(c: PersonaParts): string {
    match c.genderCode
    case Some(g) => c.mbti + "_" + g + "_" + c.caseCode
    case None => c.mbti + "_" + c.caseCode
  }

  /** The MBTI and case checks shared by both identifier forms. */
  function ValidateParts(mbti: string, genderCode: Option<string>, caseCode: string): Result<PersonaParts, ParseError> {
    if Upper(mbti) !in MBTI_TYPES then Err(InvalidMbti(mbti))
    else if Upper(caseCode) !in CASE_CODES then Err(InvalidCase(caseCode))
    else Ok(PersonaParts(Upper(mbti), genderCode, Upper(caseCode)))
  }

  /** `parse_persona_id`: split on "_" and validate each part case-insensitively. */
  function ParsePersonaId(personaId: string): (r: Result<PersonaParts, ParseError>)
    ensures |Split(personaId, "_")| != 2 && |Split(personaId, "_")| != 3 ==> r == Err(InvalidFormat(personaId))
    ensures r.Ok? ==> ValidParts(r.value)
    ensures r.Ok? ==> (r.value.genderCode.Some? <==> |Split(personaId, "_")| == 3)
    ensures |Split(personaId, "_")| == 3 && Upper(Split(personaId, "_")[1]) !in GENDER_CODES
            ==> r == Err(InvalidGender(Split(personaId, "_")[1]))
  {
    var parts := Split(personaId, "_");
    if |parts| == 3 then
      if Upper(parts[1]) !in GENDER_CODES then Err(InvalidGender(parts[1]))
      else ValidateParts(parts[0], Some(Upper(parts[1])), parts[2])
    else if |parts| == 2 then
      ValidateParts(parts[0], None, parts[1])
    else
      Err(InvalidFormat(personaId))
  }

  lemma MbtiCapitals(m: string)
    requires m in MBTI_TYPES
    ensures AllCapitals(m) && !Contains(m, "_") && Upper(m) == m
  {
    assert AllCapitals(m);
    CapitalsAvoid(m, "_");
    UpperOfCapitals(m);
  }

  lemma CodeCapitals(code: string)
    requires code in GENDER_CODES || code in CASE_CODES
    ensures AllCapitals(code) && !Contains(code, "_") && Upper(code) == code
  {
    assert AllCapitals(code);
    CapitalsAvoid(code, "_");
    UpperOfCapitals(code);
  }

  /** How the identifier built from valid components splits on "_". */
  lemma SplitFormatId(c: PersonaParts)
    requires ValidParts(c)
    ensures c.genderCode.Some? ==> Split(FormatId(c), "_") == [c.mbti, c.genderCode.value, c.caseCode]
    ensures c.genderCode.None? ==> Split(FormatId(c), "_") == [c.mbti, c.caseCode]
  {
    MbtiCapitals(c.mbti);
    CodeCapitals(c.caseCode);
    if c.genderCode.Some? {
      CodeCapitals(c.genderCode.value);
      SplitThree(c.mbti, c.genderCode.value, c.caseCode, "_");
    } else {
      SplitTwo(c.mbti, c.caseCode, "_");
    }
  }

  /** Round trip: the identifier built from valid components parses back to exactly those components. */
  lemma ParseFormatId(c: PersonaParts)
    requires ValidParts(c)
    ensures ParsePersonaId(FormatId(c)) == Ok(c)
  {
    SplitFormatId(c);
    MbtiCapitals(c.mbti);
    CodeCapitals(c.caseCode);
    assert ValidateParts(c.mbti, c.genderCode, c.caseCode) == Ok(c);
    if c.genderCode.Some? {
      CodeCapitals(c.genderCode.value);
    }
  }

  /** Distinct valid components give distinct identifiers. */
  lemma FormatIdInjective(c1: PersonaParts, c2: PersonaParts)
    requires ValidParts(c1) && ValidParts(c2) && c1 != c2
    ensures FormatId(c1) != FormatId(c2)
  {
    ParseFormatId(c1);
    ParseFormatId(c2);
  }

  /** Inverse direction: a parsed identifier, written back out, is the identifier upper-cased. */
  lemma ParseThenFormat(personaId: string)
    requires ParsePersonaId(personaId).Ok?
    ensures FormatId(ParsePersonaId(personaId).value) == Upper(personaId)
  {
    var parts := Split(personaId, "_");
    JoinSplit(personaId, "_");
    JoinShapes(parts, "_");
    if |parts| == 3 {
      UpperGlue(parts[0] + "_" + parts[1], parts[2]);
      UpperGlue(parts[0], parts[1]);
    } else {
      UpperGlue(parts[0], parts[1]);
    }
  }

  // ---------------------------------------------------------------- prompt files

  /** A prompt template file: its sub-directory of the prompts directory and its name. */
  datatype PromptFile = PromptFile(dir: string, name: string)

  /** The `mbti`, `gender` (absent without a gender code) and `case` entries. */
  datatype PromptPaths = PromptPaths(mbti: PromptFile, gender: Option<PromptFile>, caseFile: PromptFile)

  /** The medical case a case code stands for. */
  function CaseName(caseCode: string): string {
    if caseCode == "PNEUMO" then "pneumothorax" else "lung_cancer"
  }

  /** The gender a gender code stands for. */
  function GenderName(genderCode: string): string {
    if genderCode == "M" then "male" else "female"
  }

  /** The template files for parsed components: `<lower-case mbti>.txt`, the case file
      named after the case, and a gender file only when there is a gender code. */
  function PathsFor(c: PersonaParts): (paths: PromptPaths)
    ensures paths.mbti == PromptFile("mbti", Lower(c.mbti) + ".txt")
    ensures paths.caseFile == PromptFile("cases", "pneumothorax.txt") <==> c.caseCode == "PNEUMO"
    ensures paths.caseFile == PromptFile("cases", "lung_cancer.txt") <==> c.caseCode != "PNEUMO"
    ensures paths.gender.None? <==> c.genderCode.None?
    ensures paths.gender.Some? ==>
              (paths.gender.value == PromptFile("gender", "male.txt") <==> c.genderCode == Some("M"))
    ensures paths.gender.Some? ==>
              (paths.gender.value == PromptFile("gender", "female.txt") <==> c.genderCode != Some("M"))
  {
    var caseFile := PromptFile("cases", CaseName(c.caseCode) + ".txt");
    assert c.caseCode == "PNEUMO" ==> caseFile.name == "pneumothorax.txt";
    assert c.caseCode != "PNEUMO" ==> caseFile.name == "lung_cancer.txt";
    var gender := match c.genderCode
      case Some(g) => Some(PromptFile("gender", GenderName(g) + ".txt"))
      case None => None;
    assert gender.Some? ==> gender.value.name == if c.genderCode == Some("M") then "male.txt" else "female.txt";
    PromptPaths(PromptFile("mbti", Lower(c.mbti) + ".txt"), gender, caseFile)
  }

  /** `get_prompt_paths`: the template files selected by a persona identifier; an
      identifier that does not parse raises the same error. */
  function GetPromptPaths(personaId: string): (r: Result<PromptPaths, ParseError>)
    ensures r.Err? <==> ParsePersonaId(personaId).Err?
    ensures r.Err? ==> r.error == ParsePersonaId(personaId).error
    ensures r.Ok? ==> r.value == PathsFor(ParsePersonaId(personaId).value)
  {
    match ParsePersonaId(personaId)
    case Err(e) => Err(e)
    case Ok(c) => Ok(PathsFor(c))
  }

  /** The MBTI file name's stem, upper-cased, is the persona's MBTI type. */
  lemma MbtiFileNamesType(personaId: string)
    requires GetPromptPaths(personaId).Ok?
    ensures var name := GetPromptPaths(personaId).value.mbti.name;
            |name| >= 4 && Upper(name[..|name| - 4]) == ParsePersonaId(personaId).value.mbti
  {
    var mbti := ParsePersonaId(personaId).value.mbti;
    var name := GetPromptPaths(personaId).value.mbti.name;
    assert name[..|name| - 4] == Lower(mbti);
    MbtiCapitals(mbti);
    UpperLowerCapitals(mbti);
  }

  // ---------------------------------------------------------------- enumeration

  /** Identifiers for one MBTI type and case, over the given gender codes. */
  function GenderIds(mbti: string, caseCode: string, genders: seq<string>): seq<string> {
    if genders == [] then []
    else GenderIds(mbti, caseCode, genders[..|genders| - 1])
         + [FormatId(PersonaParts(mbti, Some(genders[|genders| - 1]), caseCode))]
  }

  /** Identifiers for one MBTI type and one case code. */
  function CaseIds(mbti: string, caseCode: string, includeGender: bool): seq<string> {
    if includeGender then GenderIds(mbti, caseCode, GENDER_CODES)
    else [FormatId(PersonaParts(mbti, None, caseCode))]
  }

  /** Identifiers for one MBTI type, over the given case codes. */
  function MbtiIds(mbti: string, cases: seq<string>, includeGender: bool): seq<string> {
    if cases == [] then []
    else MbtiIds(mbti, cases[..|cases| - 1], includeGender) + CaseIds(mbti, cases[|cases| - 1], includeGender)
  }

  /** Identifiers over the given MBTI types: MBTI outermost, then case, then gender. */
  function IdsOver(mbtis: seq<string>, includeGender: bool): seq<string> {
    if mbtis == [] then []
    else IdsOver(mbtis[..|mbtis| - 1], includeGender) + MbtiIds(mbtis[|mbtis| - 1], CASE_CODES, includeGender)
  }

  /** Every persona identifier, in enumeration order. */
  function AllPersonaIds(includeGender: bool): seq<string> {
    IdsOver(MBTI_TYPES, includeGender)
  }

  /** `get_all_persona_ids`: nested loops over MBTI type, case and (optionally) gender. */
  method GetAllPersonaIds(includeGender: bool) returns (personaIds: seq<string>)
    ensures personaIds == AllPersonaIds(includeGender)
  {
    personaIds := [];
    for i := 0 to |MBTI_TYPES|
      invariant personaIds == IdsOver(MBTI_TYPES[..i], includeGender)
    {
      IdsOverStep(MBTI_TYPES, i, includeGender);
      personaIds := AppendMbtiIds(personaIds, MBTI_TYPES[i], includeGender);
    }
    assert MBTI_TYPES[..|MBTI_TYPES|] == MBTI_TYPES;
  }

  /** The body of the outer loop: the identifiers of one MBTI type, case by case. */
  method AppendMbtiIds(ids: seq<string>, mbti: string, includeGender: bool) returns (more: seq<string>)
    ensures more == ids + MbtiIds(mbti, CASE_CODES, includeGender)
  {
    more := ids;
    for j := 0 to |CASE_CODES|
      invariant more == ids + MbtiIds(mbti, CASE_CODES[..j], includeGender)
    {
      assert CASE_CODES[..j + 1][..j] == CASE_CODES[..j];
      more := AppendCaseIds(more, mbti, CASE_CODES[j], includeGender);
    }
    assert CASE_CODES[..|CASE_CODES|] == CASE_CODES;
  }

  /** The body of the middle loop: the identifiers of one MBTI type and case, gender by gender. */
  method AppendCaseIds(ids: seq<string>, mbti: string, caseCode: string, includeGender: bool)
    returns (more: seq<string>)
    ensures more == ids + CaseIds(mbti, caseCode, includeGender)
  {
    if includeGender {
      more := ids;
      for k := 0 to |GENDER_CODES|
        invariant more == ids + GenderIds(mbti, caseCode, GENDER_CODES[..k])
      {
        assert GENDER_CODES[..k + 1][..k] == GENDER_CODES[..k];
        more := more + [FormatId(PersonaParts(mbti, Some(GENDER_CODES[k]), caseCode))];
      }
      assert GENDER_CODES[..|GENDER_CODES|] == GENDER_CODES;
    } else {
      more := ids + [FormatId(PersonaParts(mbti, None, caseCode))];
    }
  }

  lemma IdsOverStep(mbtis: seq<string>, i: nat, includeGender: bool)
    requires i < |mbtis|
    ensures IdsOver(mbtis[..i + 1], includeGender) == IdsOver(mbtis[..i], includeGender) + MbtiIds(mbtis[i], CASE_CODES, includeGender)
  {
    assert mbtis[..i + 1][..i] == mbtis[..i];
  }

  /** No two positions of a list hold the same element. */
  predicate Distinct(s: seq<string>) {
    forall i, j :: 0 <= i < j < |s| ==> s[i] != s[j]
  }

  /** Every identifier in `ids` parses, is written back out unchanged, and names an MBTI type
      from `mbtis`, a case from `cases`, and a gender code exactly when genders are included. */
  predicate ParsesOver(ids: seq<string>, mbtis: seq<string>, cases: seq<string>, includeGender: bool) {
    forall x :: x in ids ==>
      && ParsePersonaId(x).Ok?
      && FormatId(ParsePersonaId(x).value) == x
      && ParsePersonaId(x).value.mbti in mbtis
      && ParsePersonaId(x).value.caseCode in cases
      && (ParsePersonaId(x).value.genderCode.Some? <==> includeGender)
  }

  lemma CaseIdsShape(mbti: string, caseCode: string, includeGender: bool)
    requires mbti in MBTI_TYPES && caseCode in CASE_CODES
    ensures Distinct(CaseIds(mbti, caseCode, includeGender))
    ensures ParsesOver(CaseIds(mbti, caseCode, includeGender), [mbti], [caseCode], includeGender)
    ensures |CaseIds(mbti, caseCode, includeGender)| == if includeGender then 2 else 1
  {
    if includeGender {
      var m := PersonaParts(mbti, Some("M"), caseCode);
      var f := PersonaParts(mbti, Some("F"), caseCode);
      GenderedCaseIds(mbti, caseCode);
      ParseFormatId(m);
      ParseFormatId(f);
      assert FormatId(m) != FormatId(f);
    } else {
      ParseFormatId(PersonaParts(mbti, None, caseCode));
    }
  }

  lemma GenderedCaseIds(mbti: string, caseCode: string)
    ensures CaseIds(mbti, caseCode, true) ==
      [FormatId(PersonaParts(mbti, Some("M"), caseCode)), FormatId(PersonaParts(mbti, Some("F"), caseCode))]
  {
    assert GENDER_CODES[..1] == ["M"] && GENDER_CODES[..1][..0] == [];
    assert GenderIds(mbti, caseCode, GENDER_CODES[..1]) == [FormatId(PersonaParts(mbti, Some("M"), caseCode))];
  }

  lemma DistinctConcat(a: seq<string>, b: seq<string>)
    requires Distinct(a) && Distinct(b)
    requires forall x :: x in a ==> x !in b
    ensures Distinct(a + b)
  {
    forall i, j | 0 <= i < j < |a + b| ensures (a + b)[i] != (a + b)[j] {
      if j >= |a| && i < |a| {
        assert (a + b)[i] in a && (a + b)[j] in b;
      }
    }
  }

  lemma {:induction false} MbtiIdsShape(mbti: string, cases: seq<string>, includeGender: bool)
    requires mbti in MBTI_TYPES
    requires forall k :: 0 <= k < |cases| ==> cases[k] in CASE_CODES
    requires forall i, j :: 0 <= i < j < |cases| ==> cases[i] != cases[j]
    ensures Distinct(MbtiIds(mbti, cases, includeGender))
    ensures ParsesOver(MbtiIds(mbti, cases, includeGender), [mbti], cases, includeGender)
    ensures |MbtiIds(mbti, cases, includeGender)| == |cases| * (if includeGender then 2 else 1)
  {
    if cases != [] {
      var init, last := cases[..|cases| - 1], cases[|cases| - 1];
      MbtiIdsShape(mbti, init, includeGender);
      CaseIdsShape(mbti, last, includeGender);
      var a, b := MbtiIds(mbti, init, includeGender), CaseIds(mbti, last, includeGender);
      assert last !in init;
      DistinctConcat(a, b);
    }
  }

  lemma {:induction false} IdsOverShape(mbtis: seq<string>, includeGender: bool)
    requires forall k :: 0 <= k < |mbtis| ==> mbtis[k] in MBTI_TYPES
    requires forall i, j :: 0 <= i < j < |mbtis| ==> mbtis[i] != mbtis[j]
    ensures Distinct(IdsOver(mbtis, includeGender))
    ensures ParsesOver(IdsOver(mbtis, includeGender), mbtis, CASE_CODES, includeGender)
    ensures |IdsOver(mbtis, includeGender)| == |mbtis| * (if includeGender then 4 else 2)
  {
    if mbtis != [] {
      var init, last := mbtis[..|mbtis| - 1], mbtis[|mbtis| - 1];
      IdsOverShape(init, includeGender);
      MbtiIdsShape(last, CASE_CODES, includeGender);
      var a, b := IdsOver(init, includeGender), MbtiIds(last, CASE_CODES, includeGender);
      assert last !in init;
      DistinctConcat(a, b);
    }
  }

  /** `get_all_persona_ids` yields 64 distinct identifiers with gender and 32 without,
      each one parsing back to the components it was built from. */
  lemma AllPersonaIdsProperties(includeGender: bool)
    ensures |AllPersonaIds(includeGender)| == if includeGender then 64 else 32
    ensures Distinct(AllPersonaIds(includeGender))
    ensures forall x :: x in AllPersonaIds(includeGender) ==>
              && ParsePersonaId(x).Ok?
              && FormatId(ParsePersonaId(x).value) == x
              && (ParsePersonaId(x).value.genderCode.Some? <==> includeGender)
  {
    IdsOverShape(MBTI_TYPES, includeGender);
  }

  /** The first enumerated identifiers follow MBTI-outer, case-middle, gender-inner order. */
  lemma EnumerationOrder()
    ensures AllPersonaIds(true)[..4] == ["INTJ_M_PNEUMO", "INTJ_F_PNEUMO", "INTJ_M_LUNG", "INTJ_F_LUNG"]
    ensures AllPersonaIds(false)[..2] == ["INTJ_PNEUMO", "INTJ_LUNG"]
  {
    IdsOverCons(MBTI_TYPES, true);
    IdsOverCons(MBTI_TYPES, false);
    assert MBTI_TYPES[0] == "INTJ";
    FirstMbtiGendered();
    FirstMbtiPlain();
  }

  /** The identifiers of the first MBTI type, with gender. */
  lemma FirstMbtiGendered()
    ensures MbtiIds("INTJ", CASE_CODES, true) == ["INTJ_M_PNEUMO", "INTJ_F_PNEUMO", "INTJ_M_LUNG", "INTJ_F_LUNG"]
  {
    MbtiIdsOfCases("INTJ", true);
    CaseIdsSpelled("INTJ", "PNEUMO");
    CaseIdsSpelled("INTJ", "LUNG");
    assert "INTJ" + "_" + "M" + "_" + "PNEUMO" == "INTJ_M_PNEUMO";
    assert "INTJ" + "_" + "F" + "_" + "PNEUMO" == "INTJ_F_PNEUMO";
    assert "INTJ" + "_" + "M" + "_" + "LUNG" == "INTJ_M_LUNG";
    assert "INTJ" + "_" + "F" + "_" + "LUNG" == "INTJ_F_LUNG";
  }

  /** The identifiers of the first MBTI type, without gender. */
  lemma FirstMbtiPlain()
    ensures MbtiIds("INTJ", CASE_CODES, false) == ["INTJ_PNEUMO", "INTJ_LUNG"]
  {
    MbtiIdsOfCases("INTJ", false);
    CaseIdsSpelled("INTJ", "PNEUMO");
    CaseIdsSpelled("INTJ", "LUNG");
    assert "INTJ" + "_" + "PNEUMO" == "INTJ_PNEUMO";
    assert "INTJ" + "_" + "LUNG" == "INTJ_LUNG";
  }

  /** An MBTI type's identifiers are its pneumothorax ones followed by its lung-cancer ones. */
  lemma MbtiIdsOfCases(mbti: string, includeGender: bool)
    ensures MbtiIds(mbti, CASE_CODES, includeGender) ==
      CaseIds(mbti, "PNEUMO", includeGender) + CaseIds(mbti, "LUNG", includeGender)
  {
    assert CASE_CODES[..1] == ["PNEUMO"] && CASE_CODES[..1][..0] == [];
    assert MbtiIds(mbti, CASE_CODES[..1], includeGender) == CaseIds(mbti, "PNEUMO", includeGender);
  }

  lemma CaseIdsSpelled(mbti: string, caseCode: string)
    ensures CaseIds(mbti, caseCode, true) == [mbti + "_" + "M" + "_" + caseCode, mbti + "_" + "F" + "_" + caseCode]
    ensures CaseIds(mbti, caseCode, false) == [mbti + "_" + caseCode]
  {
    GenderedCaseIds(mbti, caseCode);
  }

  /** The enumeration over a list of MBTI types starts with the first type's identifiers. */
  lemma {:induction false} IdsOverCons(mbtis: seq<string>, includeGender: bool)
    requires mbtis != []
    ensures IdsOver(mbtis, includeGender) == MbtiIds(mbtis[0], CASE_CODES, includeGender) + IdsOver(mbtis[1..], includeGender)
  {
    if |mbtis| == 1 {
      assert mbtis[..0] == [];
    } else {
      var init, last := mbtis[..|mbtis| - 1], mbtis[|mbtis| - 1];
      var head, tail := MbtiIds(mbtis[0], CASE_CODES, includeGender), MbtiIds(last, CASE_CODES, includeGender);
      assert init[1..] == mbtis[1..][..|mbtis[1..]| - 1];
      assert mbtis[1..][|mbtis[1..]| - 1] == last;
      calc {
        IdsOver(mbtis, includeGender);
      ==
        IdsOver(init, includeGender) + tail;
      == { IdsOverCons(init, includeGender); }
        head + IdsOver(init[1..], includeGender) + tail;
      ==
        head + (IdsOver(init[1..], includeGender) + tail);
      ==
        head + IdsOver(mbtis[1..], includeGender);
      }
    }
  }

  // ---------------------------------------------------------------- keyword expansion

  /** `expand_persona_ids`: the first keyword present, in the order all, all_no_gender,
      random, random_no_gender, decides; without a keyword the list is returned unchanged.
      The random keywords pick one persona nondeterministically. */
  method ExpandPersonaIds(personaIds: seq<string>) returns (expanded: seq<string>)
    ensures "all" in personaIds ==> expanded == AllPersonaIds(true)
    ensures "all" !in personaIds && "all_no_gender" in personaIds ==> expanded == AllPersonaIds(false)
    ensures "all" !in personaIds && "all_no_gender" !in personaIds && "random" in personaIds ==>
              |expanded| == 1 && ParsePersonaId(expanded[0]).Ok? && ParsePersonaId(expanded[0]).value.genderCode.Some?
    ensures "all" !in personaIds && "all_no_gender" !in personaIds && "random" !in personaIds && "random_no_gender" in personaIds ==>
              |expanded| == 1 && ParsePersonaId(expanded[0]).Ok? && ParsePersonaId(expanded[0]).value.genderCode.None?
    ensures "all" !in personaIds && "all_no_gender" !in personaIds && "random" !in personaIds && "random_no_gender" !in personaIds ==>
              expanded == personaIds
  {
    if "all" in personaIds {
      expanded := GetAllPersonaIds(true);
      return;
    }
    if "all_no_gender" in personaIds {
      expanded := GetAllPersonaIds(false);
      return;
    }
    if "random" in personaIds {
      assert MBTI_TYPES[0] in MBTI_TYPES && GENDER_CODES[0] in GENDER_CODES && CASE_CODES[0] in CASE_CODES;
      var mbti :| mbti in MBTI_TYPES;
      var genderCode :| genderCode in GENDER_CODES;
      var caseCode :| caseCode in CASE_CODES;
      var picked := PersonaParts(mbti, Some(genderCode), caseCode);
      ParseFormatId(picked);
      expanded := [FormatId(picked)];
      return;
    }
    if "random_no_gender" in personaIds {
      assert MBTI_TYPES[0] in MBTI_TYPES && CASE_CODES[0] in CASE_CODES;
      var mbti :| mbti in MBTI_TYPES;
      var caseCode :| caseCode in CASE_CODES;
      var picked := PersonaParts(mbti, None, caseCode);
      ParseFormatId(picked);
      expanded := [FormatId(picked)];
      return;
    }
    expanded := personaIds;
  }
}
