/**
 * The keyword classifier of the backend service. The purpose text is
 * lower-cased and searched for three ordered lists of phrases: a prohibited
 * phrase decides at once; otherwise a high-risk or safety-component phrase
 * beats a transparency phrase, and a purpose matching none is minimal risk.
 * A fixed list of recommendations is attached per category.
 */
module Service {
  import opened JavaLang
  import opened Request
  import opened Response

  // ---------------------------------------------------------------------
  // Phrase tables, in the order the checks test them

  const ProhibitedPhrases: seq<string> := [
    "subliminal", "manipulative", "exploit vulnerabilities", "social scoring",
    "real-time biometric", "emotion recognition", "facial recognition database",
    "predictive policing"]

  const HighRiskDomainPhrases: seq<string> := [
    "biometric", "critical infrastructure", "education", "employment",
    "worker management", "credit scoring", "social benefits", "law enforcement",
    "migration", "asylum", "border control", "justice", "democratic process"]

  const SafetyComponentPhrases: seq<string> := ["safety component", "product safety"]

  const TransparencyPhrases: seq<string> := [
    "chatbot", "human interaction", "content generation", "deepfake",
    "emotion recognition", "biometric categorization"]

  /** Some phrase of the table occurs in the text. */
  predicate MentionsAny(text: string, phrases: seq<string>) {
    exists phrase :: phrase in phrases && Contains(text, phrase)
  }

  // ---------------------------------------------------------------------
  // The three checks

  /** checkProhibitedUseCase: the lower-cased purpose mentions a prohibited practice. */
  predicate CheckProhibitedUseCase(purpose: string) {
    MentionsAny(ToLowerCase(purpose), ProhibitedPhrases)
  }

  /** checkHighRiskUseCase: a high-risk domain or a safety component is mentioned. */
  predicate CheckHighRiskUseCase(purpose: string) {
    var p := ToLowerCase(purpose);
    var isHighRiskDomain := MentionsAny(p, HighRiskDomainPhrases);
    var isSafetyComponent := MentionsAny(p, SafetyComponentPhrases);
    isHighRiskDomain || isSafetyComponent
  }

  /** checkTransparencyRequirements: a transparency trigger is mentioned. */
  predicate CheckTransparencyRequirements(purpose: string) {
    MentionsAny(ToLowerCase(purpose), TransparencyPhrases)
  }

  /** The phrases of the table from `from` up to `to` are written in lower case. */
  ghost predicate LowerCaseBetween(phrases: seq<string>, from: nat, to: nat)
    requires from <= to <= |phrases|
  {
    forall i :: from <= i < to ==> IsLowerCase(phrases[i])
  }

  /** Every phrase of the table is written in lower case, as the lower-cased purpose is searched for it. */
  ghost predicate AllLowerCase(phrases: seq<string>) {
    LowerCaseBetween(phrases, 0, |phrases|)
  }

  /** Some phrase of the table occurs in the text, whatever the ASCII case of the text. */
  ghost predicate MentionedIgnoringCase(text: string, phrases: seq<string>) {
    exists phrase, k: nat :: phrase in phrases && OccursIgnoringCaseAt(text, phrase, k)
  }

  /** Searching the lower-cased text for lower-case phrases is a case-blind search of the text. */
  lemma MentionsAnyIgnoringCase(text: string, phrases: seq<string>)
    requires AllLowerCase(phrases)
    ensures MentionsAny(ToLowerCase(text), phrases) <==> MentionedIgnoringCase(text, phrases)
  {
    if MentionsAny(ToLowerCase(text), phrases) {
      var phrase :| phrase in phrases && Contains(ToLowerCase(text), phrase);
      ContainsIgnoringCaseIff(text, phrase);
    }
    if MentionedIgnoringCase(text, phrases) {
      var phrase, k: nat :| phrase in phrases && OccursIgnoringCaseAt(text, phrase, k);
      ContainsIgnoringCaseIff(text, phrase);
    }
  }

  // The tables are checked a few phrases at a time, which keeps each proof small.

  lemma ProhibitedPhrasesLowerCaseFrom0() ensures LowerCaseBetween(ProhibitedPhrases, 0, 2) {}
  lemma ProhibitedPhrasesLowerCaseFrom2() ensures LowerCaseBetween(ProhibitedPhrases, 2, 4) {}
  lemma ProhibitedPhrasesLowerCaseFrom4() ensures LowerCaseBetween(ProhibitedPhrases, 4, 6) {}
  lemma ProhibitedPhrasesLowerCaseFrom6() ensures LowerCaseBetween(ProhibitedPhrases, 6, 8) {}
  lemma DomainPhrasesLowerCaseFrom0() ensures LowerCaseBetween(HighRiskDomainPhrases, 0, 4) {}
  lemma DomainPhrasesLowerCaseFrom4() ensures LowerCaseBetween(HighRiskDomainPhrases, 4, 8) {}
  lemma DomainPhrasesLowerCaseFrom8() ensures LowerCaseBetween(HighRiskDomainPhrases, 8, 13) {}
  lemma TransparencyPhrasesLowerCaseFrom0() ensures LowerCaseBetween(TransparencyPhrases, 0, 3) {}
  lemma TransparencyPhrasesLowerCaseFrom3() ensures LowerCaseBetween(TransparencyPhrases, 3, 6) {}

  lemma PhraseTablesLowerCase()
    ensures AllLowerCase(ProhibitedPhrases) && AllLowerCase(HighRiskDomainPhrases)
    ensures AllLowerCase(SafetyComponentPhrases) && AllLowerCase(TransparencyPhrases)
  {
    ProhibitedPhrasesLowerCaseFrom0();
    ProhibitedPhrasesLowerCaseFrom2();
    ProhibitedPhrasesLowerCaseFrom4();
    ProhibitedPhrasesLowerCaseFrom6();
    DomainPhrasesLowerCaseFrom0();
    DomainPhrasesLowerCaseFrom4();
    DomainPhrasesLowerCaseFrom8();
    TransparencyPhrasesLowerCaseFrom0();
    TransparencyPhrasesLowerCaseFrom3();
  }

  /** checkProhibitedUseCase holds exactly when a prohibited phrase occurs in the purpose, in any case. */
  lemma CheckProhibitedUseCaseIff(purpose: string)
    ensures CheckProhibitedUseCase(purpose) <==> MentionedIgnoringCase(purpose, ProhibitedPhrases)
  {
    PhraseTablesLowerCase();
    MentionsAnyIgnoringCase(purpose, ProhibitedPhrases);
  }

  /** checkHighRiskUseCase holds exactly when a domain or a safety-component phrase occurs, in any case. */
  lemma CheckHighRiskUseCaseIff(purpose: string)
    ensures CheckHighRiskUseCase(purpose) <==>
      MentionedIgnoringCase(purpose, HighRiskDomainPhrases) || MentionedIgnoringCase(purpose, SafetyComponentPhrases)
  {
    PhraseTablesLowerCase();
    MentionsAnyIgnoringCase(purpose, HighRiskDomainPhrases);
    MentionsAnyIgnoringCase(purpose, SafetyComponentPhrases);
  }

  /** checkTransparencyRequirements holds exactly when a transparency phrase occurs, in any case. */
  lemma CheckTransparencyRequirementsIff(purpose: string)
    ensures CheckTransparencyRequirements(purpose) <==> MentionedIgnoringCase(purpose, TransparencyPhrases)
  {
    PhraseTablesLowerCase();
    MentionsAnyIgnoringCase(purpose, TransparencyPhrases);
  }

  // ---------------------------------------------------------------------
  // Recommendations

  const ProhibitedRecommendations: seq<string> := [
    "This AI system falls under prohibited practices according to the EU AI Act.",
    "Consider consulting with a legal expert specializing in AI regulation.",
    "Review and modify the system to comply with EU AI Act requirements."]

  const HighRiskRecommendations: seq<string> := [
    "Conduct a comprehensive risk assessment",
    "Prepare technical documentation",
    "Implement human oversight mechanisms",
    "Ensure data quality and governance",
    "Register the system in the EU database",
    "Implement appropriate risk management measures",
    "Ensure system robustness and security",
    "Maintain detailed logs of system operations",
    "Establish a quality management system",
    "Prepare for conformity assessment"]

  const LimitedRiskRecommendations: seq<string> := [
    "Implement transparency measures",
    "Notify users when they interact with AI",
    "Label AI-generated content",
    "Maintain documentation of system capabilities",
    "Provide clear information about AI system limitations",
    "Establish procedures for handling user feedback",
    "Monitor system performance and accuracy"]

  const MinimalRiskRecommendations: seq<string> := [
    "Follow voluntary codes of conduct",
    "Monitor for potential risks",
    "Keep documentation of system operations",
    "Stay informed about regulatory updates",
    "Consider implementing basic transparency measures",
    "Regularly review system impact"]

  /** The list generateRecommendations builds for a category; any other string gets none. */
  function RecommendationsFor(category: string): seq<string> {
    if category == HighRisk then HighRiskRecommendations
    else if category == LimitedRisk then LimitedRiskRecommendations
    else if category == MinimalRisk then MinimalRiskRecommendations
    else []
  }

  /** generateRecommendations: appends the fixed list of the category, one entry at a time. */
  method GenerateRecommendations(category: string) returns (recommendations: seq<string>)
    ensures recommendations == RecommendationsFor(category)
    ensures category in [HighRisk, LimitedRisk, MinimalRisk] <==> recommendations != []
  {
    recommendations := [];
    if category == HighRisk {
      recommendations := recommendations + ["Conduct a comprehensive risk assessment"];
      recommendations := recommendations + ["Prepare technical documentation"];
      recommendations := recommendations + ["Implement human oversight mechanisms"];
      recommendations := recommendations + ["Ensure data quality and governance"];
      recommendations := recommendations + ["Register the system in the EU database"];
      recommendations := recommendations + ["Implement appropriate risk management measures"];
      recommendations := recommendations + ["Ensure system robustness and security"];
      recommendations := recommendations + ["Maintain detailed logs of system operations"];
      recommendations := recommendations + ["Establish a quality management system"];
      recommendations := recommendations + ["Prepare for conformity assessment"];
    } else if category == LimitedRisk {
      recommendations := recommendations + ["Implement transparency measures"];
      recommendations := recommendations + ["Notify users when they interact with AI"];
      recommendations := recommendations + ["Label AI-generated content"];
      recommendations := recommendations + ["Maintain documentation of system capabilities"];
      recommendations := recommendations + ["Provide clear information about AI system limitations"];
      recommendations := recommendations + ["Establish procedures for handling user feedback"];
      recommendations := recommendations + ["Monitor system performance and accuracy"];
    } else if category == MinimalRisk {
      recommendations := recommendations + ["Follow voluntary codes of conduct"];
      recommendations := recommendations + ["Monitor for potential risks"];
      recommendations := recommendations + ["Keep documentation of system operations"];
      recommendations := recommendations + ["Stay informed about regulatory updates"];
      recommendations := recommendations + ["Consider implementing basic transparency measures"];
      recommendations := recommendations + ["Regularly review system impact"];
    }
  }

  // ---------------------------------------------------------------------
  // The classification

  /** The category of a purpose that is not prohibited. */
  function NonProhibitedCategory(purpose: string): string {
    if CheckHighRiskUseCase(purpose) then HighRisk
    else if CheckTransparencyRequirements(purpose) then LimitedRisk
    else MinimalRisk
  }

  /** The response classify produces for a request with this name and purpose. */
  function Classification(name: Nullable<string>, purpose: string): ResponseValue {
    if CheckProhibitedUseCase(purpose) then
      ResponseValue(name, NonNull(purpose), NonNull(Prohibited), NonNull(ProhibitedRecommendations), true)
    else
      var category := NonProhibitedCategory(purpose);
      ResponseValue(name, NonNull(purpose), NonNull(category), NonNull(RecommendationsFor(category)), false)
  }

  /**
   * classify: fills a fresh response through its setters, returning early
   * with the fixed prohibited recommendations when a prohibited phrase occurs.
   */
  method Classify(request: ClassificationRequest) returns (response: ClassificationResponse)
    requires request.GetSystemPurpose().NonNull?
    ensures fresh(response)
    ensures response.Snapshot() == Classification(request.GetSystemName(), request.GetSystemPurpose().value)
  {
    response := new ClassificationResponse();
    response.SetSystemName(request.GetSystemName());
    response.SetSystemPurpose(request.GetSystemPurpose());

    var purpose := request.GetSystemPurpose().value;
    var isProhibited := CheckProhibitedUseCase(purpose);
    response.SetProhibited(isProhibited);

    if isProhibited {
      response.SetRiskCategory(NonNull(Prohibited));
      response.SetRecommendations(NonNull(ProhibitedRecommendations));
      return;
    }

    var isHighRisk := CheckHighRiskUseCase(purpose);
    var needsTransparency := CheckTransparencyRequirements(purpose);

    var riskCategory;
    if isHighRisk {
      riskCategory := HighRisk;
    } else if needsTransparency {
      riskCategory := LimitedRisk;
    } else {
      riskCategory := MinimalRisk;
    }

    response.SetRiskCategory(NonNull(riskCategory));
    var recommendations := GenerateRecommendations(riskCategory);
    response.SetRecommendations(NonNull(recommendations));
  }

  // ---------------------------------------------------------------------
  // Properties of the classification

  /** The name and the purpose are echoed unchanged. */
  lemma ClassificationEchoesRequest(name: Nullable<string>, purpose: string)
    ensures Classification(name, purpose).systemName == name
    ensures Classification(name, purpose).systemPurpose == NonNull(purpose)
  {
  }

  /** A prohibited phrase decides: PROHIBITED, flagged, and exactly the three fixed recommendations. */
  lemma ProhibitedPhraseDecides(name: Nullable<string>, purpose: string, i: nat)
    requires i < |ProhibitedPhrases| && Contains(ToLowerCase(purpose), ProhibitedPhrases[i])
    ensures var r := Classification(name, purpose);
      r.riskCategory == NonNull(Prohibited) && r.isProhibited
      && r.recommendations == NonNull(ProhibitedRecommendations)
  {
    assert ProhibitedPhrases[i] in ProhibitedPhrases;
  }

  /**
   * Once a prohibited phrase occurs, nothing else in the purpose matters:
   * the high-risk and transparency checks are not consulted.
   */
  lemma ProhibitedIgnoresLowerTiers(name: Nullable<string>, p: string, q: string)
    requires CheckProhibitedUseCase(p) && CheckProhibitedUseCase(q)
    ensures Classification(name, p).(systemPurpose := NonNull(q)) == Classification(name, q)
  {
  }

  /** The flag is set exactly when the category is PROHIBITED. */
  lemma ProhibitedFlagMatchesCategory(name: Nullable<string>, purpose: string)
    ensures var r := Classification(name, purpose);
      r.isProhibited <==> r.riskCategory == NonNull(Prohibited)
  {
    AllowableRiskCategoriesDistinct();
  }

  /** A high-risk or safety-component phrase beats any transparency phrase. */
  lemma HighRiskBeatsTransparency(name: Nullable<string>, purpose: string)
    requires !CheckProhibitedUseCase(purpose)
    requires MentionsAny(ToLowerCase(purpose), HighRiskDomainPhrases)
             || MentionsAny(ToLowerCase(purpose), SafetyComponentPhrases)
    ensures Classification(name, purpose).riskCategory == NonNull(HighRisk)
  {
  }

  /** Limited Risk exactly when no prohibited and no high-risk phrase but some transparency phrase occurs. */
  lemma LimitedRiskIff(name: Nullable<string>, purpose: string)
    ensures var p := ToLowerCase(purpose);
      Classification(name, purpose).riskCategory == NonNull(LimitedRisk)
      <==> !MentionsAny(p, ProhibitedPhrases)
           && !MentionsAny(p, HighRiskDomainPhrases) && !MentionsAny(p, SafetyComponentPhrases)
           && MentionsAny(p, TransparencyPhrases)
  {
    AllowableRiskCategoriesDistinct();
  }

  /** Minimal Risk exactly when no phrase of any table occurs. */
  lemma MinimalRiskIff(name: Nullable<string>, purpose: string)
    ensures var p := ToLowerCase(purpose);
      Classification(name, purpose).riskCategory == NonNull(MinimalRisk)
      <==> !MentionsAny(p, ProhibitedPhrases)
           && !MentionsAny(p, HighRiskDomainPhrases) && !MentionsAny(p, SafetyComponentPhrases)
           && !MentionsAny(p, TransparencyPhrases)
  {
    AllowableRiskCategoriesDistinct();
  }

  /** The category is always one of the four documented values, and its list is never empty. */
  lemma ClassificationWellFormed(name: Nullable<string>, purpose: string)
    ensures var r := Classification(name, purpose);
      r.riskCategory.NonNull? && r.riskCategory.value in AllowableRiskCategories
      && r.recommendations.NonNull? && r.recommendations.value != []
  {
  }

  /** The recommendation list is the fixed one of the category: 3, 10, 7 or 6 entries. */
  lemma RecommendationCounts(name: Nullable<string>, purpose: string)
    ensures var r := Classification(name, purpose);
      var n := |r.recommendations.value|;
      && (r.riskCategory == NonNull(Prohibited) ==> n == 3 && r.recommendations.value == ProhibitedRecommendations)
      && (r.riskCategory == NonNull(HighRisk) ==> n == 10 && r.recommendations.value == HighRiskRecommendations)
      && (r.riskCategory == NonNull(LimitedRisk) ==> n == 7 && r.recommendations.value == LimitedRiskRecommendations)
      && (r.riskCategory == NonNull(MinimalRisk) ==> n == 6 && r.recommendations.value == MinimalRiskRecommendations)
  {
    AllowableRiskCategoriesDistinct();
  }

  /** generateRecommendations has no entry for PROHIBITED: that list comes only from the early return. */
  lemma NoGeneratedRecommendationsForProhibited()
    ensures RecommendationsFor(Prohibited) == []
  {
    AllowableRiskCategoriesDistinct();
  }

  /** Matching ignores ASCII case: purposes equal up to case are classified alike. */
  lemma ClassificationIgnoresCase(name: Nullable<string>, p: string, q: string)
    requires EqualIgnoringCase(p, q)
    ensures Classification(name, p).(systemPurpose := NonNull(q)) == Classification(name, q)
  {
    ToLowerCaseDeterminedByCase(p, q);
  }

  /** The name never affects the verdict. */
  lemma ClassificationIgnoresName(n1: Nullable<string>, n2: Nullable<string>, purpose: string)
    ensures Classification(n1, purpose).(systemName := n2) == Classification(n2, purpose)
  {
  }

  /** "emotion recognition" is also a prohibited phrase, so it never yields Limited Risk. */
  lemma EmotionRecognitionIsProhibited(name: Nullable<string>, purpose: string)
    requires Contains(ToLowerCase(purpose), "emotion recognition")
    ensures Classification(name, purpose).riskCategory == NonNull(Prohibited)
  {
  }

  lemma BiometricCategorizationMentionsBiometric()
    ensures Contains("biometric categorization", "biometric")
  {
    assert "biometric" <= "biometric categorization";
  }

  /** "biometric categorization" contains "biometric", so without a prohibited phrase it yields High-Risk. */
  lemma BiometricCategorizationIsHighRisk(name: Nullable<string>, purpose: string)
    requires Contains(ToLowerCase(purpose), "biometric categorization")
    requires !CheckProhibitedUseCase(purpose)
    ensures Classification(name, purpose).riskCategory == NonNull(HighRisk)
  {
    BiometricCategorizationMentionsBiometric();
    ContainsTransitive(ToLowerCase(purpose), "biometric categorization", "biometric");
    assert "biometric" in HighRiskDomainPhrases;
  }

  /**
   * Only four of the six transparency phrases can decide Limited Risk: a
   * Limited Risk purpose mentions a chatbot, human interaction, content
   * generation or a deepfake.
   */
  lemma LimitedRiskNeedsReachablePhrase(name: Nullable<string>, purpose: string)
    requires Classification(name, purpose).riskCategory == NonNull(LimitedRisk)
    ensures MentionsAny(ToLowerCase(purpose), ["chatbot", "human interaction", "content generation", "deepfake"])
  {
    var p := ToLowerCase(purpose);
    AllowableRiskCategoriesDistinct();
    if Contains(p, "biometric categorization") {
      BiometricCategorizationIsHighRisk(name, purpose);
    }
    assert ["chatbot", "human interaction", "content generation", "deepfake"][0] == "chatbot";
    assert ["chatbot", "human interaction", "content generation", "deepfake"][1] == "human interaction";
    assert ["chatbot", "human interaction", "content generation", "deepfake"][2] == "content generation";
    assert ["chatbot", "human interaction", "content generation", "deepfake"][3] == "deepfake";
  }
}
