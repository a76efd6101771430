/**
 * The command-line questionnaire that preceded the web service: it reads a
 * name, a purpose and then yes/no answers from standard input, one line
 * each, and derives a tier from the answers alone.
 *
 * Standard input is a Scanner over a fixed sequence of lines; running out
 * of lines is excluded by precondition. Console output is not modelled.
 */
module Questionnaire {
  import opened JavaLang
  import opened Response

  /** A cursor over the lines of standard input. */
  class Scanner {
    const lines: seq<string>
    var position: nat

    constructor (input: seq<string>)
      ensures lines == input && position == 0
    {
      lines := input;
      position := 0;
    }

    /** Scanner.nextLine: the line under the cursor; the cursor moves past it. */
    method NextLine() returns (line: string)
      requires position < |lines|
      modifies this`position
      ensures line == lines[old(position)]
      ensures position == old(position) + 1
    {
      line := lines[position];
      position := position + 1;
    }
  }

  // ---------------------------------------------------------------------
  // Answers

  /** How promptYesNo reads an answer: trimmed, lower-cased, then tested for a leading 'y'. */
  function ParseAnswer(answer: string): string {
    ToLowerCase(Trim(answer))
  }

  /** The answer is "yes": its first character above U+0020 is 'y' or 'Y'. */
  predicate IsYes(answer: string)
    decreases |answer|
  {
    if answer == [] then false
    else if IsTrimmed(answer[0]) then IsYes(answer[1..])
    else ToLowerChar(answer[0]) == 'y'
  }

  /** The parsed answer starts with "y" exactly when the answer is a "yes". */
  lemma {:induction false} ParsedAnswerStartsWithY(answer: string)
    ensures StartsWith(ParseAnswer(answer), "y") <==> IsYes(answer)
    decreases |answer|
  {
    if answer != [] {
      if IsTrimmed(answer[0]) {
        assert TrimLeading(answer) == TrimLeading(answer[1..]);
        ParsedAnswerStartsWithY(answer[1..]);
      } else {
        var t := Trim(answer);
        assert TrimLeading(answer) == answer;
        assert |t| > 0 && t[0] == answer[0];
        assert ParseAnswer(answer)[0] == ToLowerChar(answer[0]);
      }
    }
  }

  /** An empty line, or one of blanks only, answers "no". */
  lemma {:induction false} BlankAnswerIsNo(answer: string)
    requires forall j :: 0 <= j < |answer| ==> IsTrimmed(answer[j])
    ensures !IsYes(answer)
    decreases |answer|
  {
    if answer != [] {
      BlankAnswerIsNo(answer[1..]);
    }
  }

  /** Leading blanks and the case of the 'y' do not matter, nor does what follows it. */
  lemma {:induction false} PaddedYesIsYes(padding: string, rest: string)
    requires forall j :: 0 <= j < |padding| ==> IsTrimmed(padding[j])
    ensures IsYes(padding + "Y" + rest) && IsYes(padding + "y" + rest)
    decreases |padding|
  {
    if padding != [] {
      assert (padding + "Y" + rest)[1..] == padding[1..] + "Y" + rest;
      assert (padding + "y" + rest)[1..] == padding[1..] + "y" + rest;
      PaddedYesIsYes(padding[1..], rest);
    }
  }

  /** The non-short-circuit OR of a run of answers. */
  predicate AnyYes(answers: seq<string>)
    decreases |answers|
  {
    if answers == [] then false
    else AnyYes(answers[..|answers| - 1]) || IsYes(answers[|answers| - 1])
  }

  /** The fold is true exactly when some answer is a "yes". */
  lemma {:induction false} AnyYesIff(answers: seq<string>)
    ensures AnyYes(answers) <==> exists k :: 0 <= k < |answers| && IsYes(answers[k])
    decreases |answers|
  {
    if answers != [] {
      var n := |answers| - 1;
      AnyYesIff(answers[..n]);
      assert forall k :: 0 <= k < n ==> answers[..n][k] == answers[k];
    }
  }

  /** promptYesNo: reads one line and parses it. */
  method PromptYesNo(scnr: Scanner) returns (yes: bool)
    requires scnr.position < |scnr.lines|
    modifies scnr`position
    ensures scnr.position == old(scnr.position) + 1
    ensures yes == IsYes(scnr.lines[old(scnr.position)])
  {
    var line := scnr.NextLine();
    var response := ParseAnswer(line);
    ParsedAnswerStartsWithY(line);
    yes := StartsWith(response, "y");
  }

  /** One more answer folded into the OR of the answers before it. */
  lemma AnyYesSnoc(lines: seq<string>, from: nat, to: nat)
    requires from <= to < |lines|
    ensures AnyYes(lines[from..to + 1]) == (AnyYes(lines[from..to]) || IsYes(lines[to]))
  {
    assert lines[from..to + 1][..to - from] == lines[from..to];
  }

  // ---------------------------------------------------------------------
  // The three sections

  /** The seven prohibited-practice questions: every one is asked, whatever the earlier answers. */
  method CheckProhibitedUseCase(scnr: Scanner) returns (result: bool)
    requires scnr.position + 7 <= |scnr.lines|
    modifies scnr`position
    ensures scnr.position == old(scnr.position) + 7
    ensures result == AnyYes(scnr.lines[old(scnr.position)..scnr.position])
  {
    ghost var start := scnr.position;
    assert scnr.lines[start..start] == [];
    result := false;
    var answer := PromptYesNo(scnr);
    result := result || answer;
    AnyYesSnoc(scnr.lines, start, start);
    assert result == AnyYes(scnr.lines[start..scnr.position]);
    answer := PromptYesNo(scnr);
    result := result || answer;
    AnyYesSnoc(scnr.lines, start, start + 1);
    assert result == AnyYes(scnr.lines[start..scnr.position]);
    answer := PromptYesNo(scnr);
    result := result || answer;
    AnyYesSnoc(scnr.lines, start, start + 2);
    assert result == AnyYes(scnr.lines[start..scnr.position]);
    answer := PromptYesNo(scnr);
    result := result || answer;
    AnyYesSnoc(scnr.lines, start, start + 3);
    assert result == AnyYes(scnr.lines[start..scnr.position]);
    answer := PromptYesNo(scnr);
    result := result || answer;
    AnyYesSnoc(scnr.lines, start, start + 4);
    assert result == AnyYes(scnr.lines[start..scnr.position]);
    answer := PromptYesNo(scnr);
    result := result || answer;
    AnyYesSnoc(scnr.lines, start, start + 5);
    assert result == AnyYes(scnr.lines[start..scnr.position]);
    answer := PromptYesNo(scnr);
    result := result || answer;
    AnyYesSnoc(scnr.lines, start, start + 6);
    assert result == AnyYes(scnr.lines[start..scnr.position]);
  }

  /** The eight high-risk domains, then the safety-component question: nine answers. */
  method CheckHighRiskUseCase(scnr: Scanner) returns (result: bool)
    requires scnr.position + 9 <= |scnr.lines|
    modifies scnr`position
    ensures scnr.position == old(scnr.position) + 9
    ensures result == AnyYes(scnr.lines[old(scnr.position)..scnr.position])
  {
    ghost var start := scnr.position;
    assert scnr.lines[start..start] == [];
    result := false;
    var answer := PromptYesNo(scnr);
    result := result || answer;
    AnyYesSnoc(scnr.lines, start, start);
    answer := PromptYesNo(scnr);
    result := result || answer;
    AnyYesSnoc(scnr.lines, start, start + 1);
    answer := PromptYesNo(scnr);
    result := result || answer;
    AnyYesSnoc(scnr.lines, start, start + 2);
    answer := PromptYesNo(scnr);
    result := result || answer;
    AnyYesSnoc(scnr.lines, start, start + 3);
    answer := PromptYesNo(scnr);
    result := result || answer;
    AnyYesSnoc(scnr.lines, start, start + 4);
    answer := PromptYesNo(scnr);
    result := result || answer;
    AnyYesSnoc(scnr.lines, start, start + 5);
    answer := PromptYesNo(scnr);
    result := result || answer;
    AnyYesSnoc(scnr.lines, start, start + 6);
    answer := PromptYesNo(scnr);
    result := result || answer;
    AnyYesSnoc(scnr.lines, start, start + 7);

    var isSafetyComponent := PromptYesNo(scnr);
    AnyYesSnoc(scnr.lines, start, start + 8);
    result := result || isSafetyComponent;
  }

  /** The three transparency questions. */
  method CheckTransparencyRequirements(scnr: Scanner) returns (result: bool)
    requires scnr.position + 3 <= |scnr.lines|
    modifies scnr`position
    ensures scnr.position == old(scnr.position) + 3
    ensures result == AnyYes(scnr.lines[old(scnr.position)..scnr.position])
  {
    ghost var start := scnr.position;
    assert scnr.lines[start..start] == [];
    result := false;
    var answer := PromptYesNo(scnr);
    result := result || answer;
    AnyYesSnoc(scnr.lines, start, start);
    answer := PromptYesNo(scnr);
    result := result || answer;
    AnyYesSnoc(scnr.lines, start, start + 1);
    answer := PromptYesNo(scnr);
    result := result || answer;
    AnyYesSnoc(scnr.lines, start, start + 2);
  }

  /** The questionnaire's generateRecommendations: every case of its switch is empty. */
  method GenerateRecommendations(riskCategory: string) returns (recommendations: seq<string>)
    ensures recommendations == []
  {
    recommendations := [];
    if riskCategory == HighRisk {
    } else if riskCategory == LimitedRisk {
    } else if riskCategory == MinimalRisk {
    }
  }

  // ---------------------------------------------------------------------
  // A whole run

  // Input lines: 0 the name, 1 the purpose, 2..8 prohibited, 9..17 high-risk, 18..20 transparency.
  const ProhibitedStart: nat := 2
  const HighRiskStart: nat := 9
  const TransparencyStart: nat := 18
  const QuestionnaireEnd: nat := 21

  /** The outcome of a run: the tier (null when a prohibited practice stopped it) and the lines read. */
  datatype Assessment = Assessment(category: Nullable<string>, consumed: nat)

  /** Enough lines for the questions the answers lead to. */
  predicate EnoughInput(input: seq<string>) {
    |input| >= HighRiskStart
    && (!AnyYes(input[ProhibitedStart..HighRiskStart]) ==> |input| >= QuestionnaireEnd)
  }

  function Tier(isHighRisk: bool, needsTransparency: bool): string {
    if isHighRisk then HighRisk else if needsTransparency then LimitedRisk else MinimalRisk
  }

  /** What a run over `input` decides. */
  function Assess(input: seq<string>): Assessment
    requires EnoughInput(input)
  {
    if AnyYes(input[ProhibitedStart..HighRiskStart]) then Assessment(Null, HighRiskStart)
    else
      Assessment(NonNull(Tier(AnyYes(input[HighRiskStart..TransparencyStart]),
                              AnyYes(input[TransparencyStart..QuestionnaireEnd]))),
                 QuestionnaireEnd)
  }

  /**
   * main: reads the name and the purpose, then the prohibited section; a
   * "yes" there ends the run. Otherwise both remaining sections are asked in
   * full and the tier chosen by precedence.
   */
  method RunQuestionnaire(input: seq<string>) returns (category: Nullable<string>, consumed: nat)
    requires EnoughInput(input)
    ensures Assessment(category, consumed) == Assess(input)
  {
    var scnr := new Scanner(input);
    var systemName := scnr.NextLine();
    var systemPurpose := scnr.NextLine();

    var isProhibited := CheckProhibitedUseCase(scnr);
    if isProhibited {
      return Null, scnr.position;
    }

    var isHighRisk := CheckHighRiskUseCase(scnr);
    var needsTransparency := CheckTransparencyRequirements(scnr);

    var riskCategory;
    if isHighRisk {
      riskCategory := HighRisk;
    } else if needsTransparency {
      riskCategory := LimitedRisk;
    } else {
      riskCategory := MinimalRisk;
    }
    var recommendations := GenerateRecommendations(riskCategory);
    return NonNull(riskCategory), scnr.position;
  }

  // ---------------------------------------------------------------------
  // Properties of a run

  /** One "yes" among the seven prohibited answers ends the run after line 9, with no tier. */
  lemma ProhibitedAnswerStopsRun(input: seq<string>, k: nat)
    requires EnoughInput(input)
    requires ProhibitedStart <= k < HighRiskStart && IsYes(input[k])
    ensures Assess(input) == Assessment(Null, HighRiskStart)
  {
    AnyYesOnSlice(input, ProhibitedStart, HighRiskStart);
  }

  /** With no prohibited "yes", all 21 lines are read and a tier is always given. */
  lemma NoProhibitedAnswerReadsAll(input: seq<string>)
    requires EnoughInput(input)
    requires forall k :: ProhibitedStart <= k < HighRiskStart ==> !IsYes(input[k])
    ensures Assess(input).consumed == QuestionnaireEnd
    ensures Assess(input).category.NonNull?
    ensures Assess(input).category.value in AllowableRiskCategories
    ensures Assess(input).category != NonNull(Prohibited)
  {
    AnyYesOnSlice(input, ProhibitedStart, HighRiskStart);
  }

  /** A "yes" in the high-risk section gives High-Risk, whatever the transparency answers. */
  lemma HighRiskBeatsTransparency(input: seq<string>, k: nat)
    requires EnoughInput(input)
    requires forall j :: ProhibitedStart <= j < HighRiskStart ==> !IsYes(input[j])
    requires HighRiskStart <= k < TransparencyStart && k < |input| && IsYes(input[k])
    ensures Assess(input).category == NonNull(HighRisk)
  {
    AnyYesOnSlice(input, ProhibitedStart, HighRiskStart);
    AnyYesOnSlice(input, HighRiskStart, TransparencyStart);
  }

  /** Limited Risk exactly when only the transparency section has a "yes". */
  lemma LimitedRiskIff(input: seq<string>)
    requires EnoughInput(input) && |input| >= QuestionnaireEnd
    ensures Assess(input).category == NonNull(LimitedRisk) <==>
      (forall k :: ProhibitedStart <= k < TransparencyStart ==> !IsYes(input[k]))
      && exists k :: TransparencyStart <= k < QuestionnaireEnd && IsYes(input[k])
  {
    AllowableRiskCategoriesDistinct();
    if !AnyYes(input[ProhibitedStart..HighRiskStart]) {
      AnyYesOnSlice(input, ProhibitedStart, HighRiskStart);
      AnyYesOnSlice(input, HighRiskStart, TransparencyStart);
      AnyYesOnSlice(input, TransparencyStart, QuestionnaireEnd);
    } else {
      AnyYesOnSlice(input, ProhibitedStart, HighRiskStart);
    }
  }

  /** High-Risk exactly when no prohibited answer is a "yes" and some high-risk answer is. */
  lemma HighRiskIff(input: seq<string>)
    requires EnoughInput(input) && |input| >= QuestionnaireEnd
    ensures Assess(input).category == NonNull(HighRisk) <==>
      (forall k :: ProhibitedStart <= k < HighRiskStart ==> !IsYes(input[k]))
      && exists k :: HighRiskStart <= k < TransparencyStart && IsYes(input[k])
  {
    AllowableRiskCategoriesDistinct();
    AnyYesOnSlice(input, ProhibitedStart, HighRiskStart);
    AnyYesOnSlice(input, HighRiskStart, TransparencyStart);
  }

  /** Minimal Risk exactly when no answer at all is a "yes". */
  lemma MinimalRiskIff(input: seq<string>)
    requires EnoughInput(input) && |input| >= QuestionnaireEnd
    ensures Assess(input).category == NonNull(MinimalRisk) <==>
      forall k :: ProhibitedStart <= k < QuestionnaireEnd ==> !IsYes(input[k])
  {
    AllowableRiskCategoriesDistinct();
    AnyYesOnSlice(input, ProhibitedStart, HighRiskStart);
    AnyYesOnSlice(input, HighRiskStart, TransparencyStart);
    AnyYesOnSlice(input, TransparencyStart, QuestionnaireEnd);
  }

  /** AnyYes over a slice, stated over the positions of the whole input. */
  lemma AnyYesOnSlice(input: seq<string>, from: nat, to: nat)
    requires from <= to <= |input|
    ensures AnyYes(input[from..to]) <==> exists k :: from <= k < to && IsYes(input[k])
  {
    var section := input[from..to];
    AnyYesIff(section);
    assert forall k :: 0 <= k < |section| ==> section[k] == input[from + k];
    if exists k :: from <= k < to && IsYes(input[k]) {
      var k :| from <= k < to && IsYes(input[k]);
      assert section[k - from] == input[k];
    }
  }

  /** The name and the purpose lines never change the outcome. */
  lemma NameAndPurposeIgnored(input: seq<string>, name: string, purpose: string)
    requires EnoughInput(input)
    ensures EnoughInput(input[0 := name][1 := purpose])
    ensures Assess(input[0 := name][1 := purpose]) == Assess(input)
  {
    var other := input[0 := name][1 := purpose];
    assert other[ProhibitedStart..HighRiskStart] == input[ProhibitedStart..HighRiskStart];
    if |input| >= QuestionnaireEnd {
      assert other[HighRiskStart..TransparencyStart] == input[HighRiskStart..TransparencyStart];
      assert other[TransparencyStart..QuestionnaireEnd] == input[TransparencyStart..QuestionnaireEnd];
    }
  }

  /** The outcome depends only on the lines the run reads; whatever follows them is never looked at. */
  lemma OnlyConsumedLinesMatter(input: seq<string>, other: seq<string>)
    requires EnoughInput(input)
    requires |other| >= Assess(input).consumed
    requires other[..Assess(input).consumed] == input[..Assess(input).consumed]
    ensures EnoughInput(other) && Assess(other) == Assess(input)
  {
    var c := Assess(input).consumed;
    assert other[ProhibitedStart..HighRiskStart] == other[..c][ProhibitedStart..HighRiskStart];
    assert input[ProhibitedStart..HighRiskStart] == input[..c][ProhibitedStart..HighRiskStart];
    if c == QuestionnaireEnd {
      assert other[HighRiskStart..TransparencyStart] == other[..c][HighRiskStart..TransparencyStart];
      assert input[HighRiskStart..TransparencyStart] == input[..c][HighRiskStart..TransparencyStart];
      assert other[TransparencyStart..QuestionnaireEnd] == other[..c][TransparencyStart..QuestionnaireEnd];
      assert input[TransparencyStart..QuestionnaireEnd] == input[..c][TransparencyStart..QuestionnaireEnd];
    }
  }
}
