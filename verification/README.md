# EU AI Act risk classifier — a Dafny model

AI-Risk-Auditor sorts an AI system into one of the EU AI Act's risk tiers
and attaches compliance recommendations to the verdict. This project models
two parts of it:

- **The Java backend.**
  - The service lower-cases the free-text system purpose and searches it
    for three ordered lists of phrases.
  - A prohibited phrase decides at once: the category is `PROHIBITED`, the
    flag is set and three fixed recommendations are attached.
  - Otherwise a high-risk domain or safety-component phrase gives
    `High-Risk`. A transparency phrase gives `Limited Risk`. Anything else
    is `Minimal Risk`.
  - Each of the three non-prohibited categories carries its own fixed list
    of recommendations.
  - The controller validates the request first. A failure is answered 400
    with a field-to-message map.
  - A second endpoint renders a response as a plain-text report with a
    `Content-Disposition` attachment header.
- **The command-line questionnaire** that came first. It reads a name, a
  purpose and yes/no answers, one line each, from standard input.
  - Seven prohibited-practice answers come first. Any "yes" ends the run
    without a tier.
  - Otherwise nine high-risk answers and three transparency answers follow.
    Every answer is read, even after an earlier "yes".

The frontend sends 19 yes/no flags with the request
(`frontend/src/services/api.ts`, lines 8-28), but the backend's request has
no field for them and drops them. The tier is decided by keywords in the
purpose text. The model follows the code in this, and not a flag-driven
engine, which those flags would suggest.

Files and modules:

| file | module | models |
|---|---|---|
| `java_lang.dfy` | `JavaLang` | the parts of `java.lang` the code relies on: nullable references, `String.valueOf` writing null as `"null"`, ASCII `toLowerCase`, `trim`, `contains`, `startsWith`, decimal `int` rendering |
| `request.dfy` | `Request` | the request bean, its setters, and its `@NotBlank`/`@Size` constraints |
| `response.dfy` | `Response` | the five-field response bean, its setters, and its JSON form |
| `service.dfy` | `Service` | the keyword classifier and the recommendation tables |
| `controller.dfy` | `Controller` | `classify`, `handleValidationExceptions`, and `downloadResults` with its report layout |
| `questionnaire.dfy` | `Questionnaire` | the command-line questionnaire over a scanner of input lines |

How the model is built:

- **Beans are classes.** The request and the response are classes whose
  setters are methods with `modifies` frames.
  - Each setter states the bean's whole new value: the old one with that
    one field replaced.
  - `Service.Classify` fills a fresh response through the setters, with the
    early return of the source.
  - Its `ensures` ties the response's fields to the pure function
    `Service.Classification`. The properties are proved about that function.
- **The report is written step by step.** `Controller.DownloadResults`
  writes the report into a buffer section by section, like the source's
  writer, and counts recommendations in a loop.
  - Its result is tied to `Controller.DownloadResponse`. That function
    describes the report as a list of lines joined by newlines.
  - `Controller.SplitLines` reads such a text back into its lines.
- **The questionnaire reads from a scanner.** `Questionnaire.Scanner` is a
  cursor over a fixed list of lines.
  - Each section method states how far it moves the cursor and which fold
    of the answers it returns.
  - `Questionnaire.RunQuestionnaire` is tied to the function
    `Questionnaire.Assess`, which gives the tier and the number of lines
    read.

## Model

| member | source | states |
|---|---|---|
| JavaLang.ToLowerCase | src/main/java/com/euaiact/classifier/service/ClassificationService.java:55 | the lower-cased purpose has the same length, maps each character through ASCII lower-casing, and has no upper-case letter left |
| JavaLang.ToLowerCaseIdempotent | src/main/java/com/euaiact/classifier/service/ClassificationService.java:55 | lower-casing twice is lower-casing once |
| JavaLang.ToLowerCaseDeterminedByCase | src/main/java/com/euaiact/classifier/service/ClassificationService.java:55 | strings equal up to ASCII case lower-case to the same string |
| JavaLang.TrimLeading | EUAIActClassifer.java:182 | the result is a suffix of the input; everything dropped is at or below U+0020; the result does not start with such a character |
| JavaLang.TrimTrailing | EUAIActClassifer.java:182 | the mirror image: a prefix, with only characters at or below U+0020 dropped from the end |
| JavaLang.TrimEmptyIffBlank | src/main/java/com/euaiact/classifier/model/ClassificationRequest.java:14 | trimming leaves nothing exactly when every character is at or below U+0020 |
| JavaLang.TrimStartsAtFirstVisible | EUAIActClassifer.java:182 | a non-empty trimmed string starts with the first character above U+0020 |
| JavaLang.ContainsAt | src/main/java/com/euaiact/classifier/service/ClassificationService.java:58-65 | an occurrence at an explicit position makes `contains` true |
| JavaLang.ContainsWitness | src/main/java/com/euaiact/classifier/service/ClassificationService.java:58-65 | when `contains` is true, there is a position at which the phrase occurs |
| JavaLang.ContainsTransitive | src/main/java/com/euaiact/classifier/service/ClassificationService.java:72-102 | an occurrence of an occurrence is an occurrence; this is why "biometric categorization" always matches "biometric" |
| JavaLang.ContainsIgnoringCaseIff | src/main/java/com/euaiact/classifier/service/ClassificationService.java:54-64 | the lower-cased text contains a lower-case phrase exactly when the phrase occurs in the text at some position with ASCII case ignored |
| JavaLang.JavaLength | src/main/java/com/euaiact/classifier/model/ClassificationRequest.java:15 | `String.length` counts UTF-16 code units: between the number of characters and twice it, equal to it exactly when no character lies outside the Basic Multilingual Plane, twice it exactly when every one does |
| JavaLang.JavaLengthOne | src/main/java/com/euaiact/classifier/model/ClassificationRequest.java:15 | a single character is one code unit, or two when it lies outside the Basic Multilingual Plane |
| JavaLang.JavaLengthAppend | src/main/java/com/euaiact/classifier/model/ClassificationRequest.java:15 | the length of a concatenation is the sum of the lengths; with the one-character case this fixes the length of every string |
| JavaLang.NatToString | src/main/java/com/euaiact/classifier/controller/ClassificationController.java:116 | the rendering of a count is a non-empty string of digits, whose decimal value is the count, with no leading zero |
| JavaLang.NatToStringInjective | src/main/java/com/euaiact/classifier/controller/ClassificationController.java:116 | distinct counts are rendered differently, so the numbers in the list are distinct |
| Request.ClassificationRequest.constructor | src/main/java/com/euaiact/classifier/model/ClassificationRequest.java:8-25 | a new request has both fields null |
| Request.ClassificationRequest.SetSystemName | src/main/java/com/euaiact/classifier/model/ClassificationRequest.java:28-34 | the getter then returns the new name; the purpose is unchanged |
| Request.ClassificationRequest.SetSystemPurpose | src/main/java/com/euaiact/classifier/model/ClassificationRequest.java:36-42 | the getter then returns the new purpose; the name is unchanged |
| Request.NotBlank | src/main/java/com/euaiact/classifier/model/ClassificationRequest.java:14-23 | a value passes `@NotBlank` exactly when it is non-null and has a character above U+0020 |
| Request.FieldViolations | src/main/java/com/euaiact/classifier/model/ClassificationRequest.java:14-24 | every error of a field names that field and carries one of its two messages; the required message is reported exactly when `@NotBlank` fails and the size message exactly when `@Size` fails; there are no errors exactly when both constraints hold; there are at most two |
| Request.ConstraintViolations | src/main/java/com/euaiact/classifier/model/ClassificationRequest.java:14-25 | errors are reported only against the two fields; a field has an error exactly when its constraints fail (non-null, not blank, length in UTF-16 code units within 3..100 or 10..1000); for each field, "is required" is reported exactly when `@NotBlank` fails and "must be between ..." exactly when `@Size` fails; no errors exactly when both fields are accepted; at most four errors |
| Request.NullNameReportedOnce | src/main/java/com/euaiact/classifier/model/ClassificationRequest.java:14-16 | a null name gets the "required" error and no other name error, since `@Size` accepts null |
| Request.EmptyNameReportedTwice | src/main/java/com/euaiact/classifier/model/ClassificationRequest.java:14-16 | an empty name gets both the "required" and the size error |
| Request.NameLengthCountsCodeUnits | src/main/java/com/euaiact/classifier/model/ClassificationRequest.java:15 | one emoji (two code units) is too short for a name, while two emoji (four code units) are long enough |
| Response.AllowableRiskCategoriesDistinct | src/main/java/com/euaiact/classifier/model/ClassificationResponse.java:21-26 | the four documented categories are pairwise distinct |
| Response.ClassificationResponse.constructor | src/main/java/com/euaiact/classifier/model/ClassificationResponse.java:8-39 | a new response has its four reference fields null and the flag false |
| Response.ClassificationResponse.SetSystemName | src/main/java/com/euaiact/classifier/model/ClassificationResponse.java:42-48 | the getter returns the new value; the other four fields are unchanged |
| Response.ClassificationResponse.SetSystemPurpose | src/main/java/com/euaiact/classifier/model/ClassificationResponse.java:50-56 | the getter returns the new value; the other four fields are unchanged |
| Response.ClassificationResponse.SetRiskCategory | src/main/java/com/euaiact/classifier/model/ClassificationResponse.java:58-64 | the getter returns the new value; the other four fields are unchanged |
| Response.ClassificationResponse.SetRecommendations | src/main/java/com/euaiact/classifier/model/ClassificationResponse.java:66-72 | the getter returns the new value; the other four fields are unchanged |
| Response.ClassificationResponse.SetProhibited | src/main/java/com/euaiact/classifier/model/ClassificationResponse.java:74-80 | `isProhibited()` returns the new flag; the other four fields are unchanged |
| Response.ToJson | src/main/java/com/euaiact/classifier/model/ClassificationResponse.java:38-39 | the JSON object has exactly the five keys, with the flag under "isProhibited" |
| Response.FromJson | src/main/java/com/euaiact/classifier/controller/ClassificationController.java:65 | reading a JSON body back: each text field is set exactly when its key holds a string, and then to that string; the list is set exactly when its key holds an array of strings, and then element by element; the flag is true exactly when "isProhibited" holds true; missing or mistyped keys leave the default |
| Response.JsonRoundTrip | src/main/java/com/euaiact/classifier/model/ClassificationResponse.java:8-39 | reading a response's JSON back gives the same response |
| Service.GenerateRecommendations | src/main/java/com/euaiact/classifier/service/ClassificationService.java:105-146 | the appended list is the fixed table of the category; it is non-empty exactly for the three non-prohibited categories |
| Service.CheckProhibitedUseCaseIff | src/main/java/com/euaiact/classifier/service/ClassificationService.java:53-65 | `checkProhibitedUseCase` holds exactly when one of the eight prohibited phrases occurs in the purpose, in any ASCII case |
| Service.CheckHighRiskUseCaseIff | src/main/java/com/euaiact/classifier/service/ClassificationService.java:67-90 | `checkHighRiskUseCase` holds exactly when one of the thirteen domain phrases or the two safety-component phrases occurs in the purpose, in any ASCII case |
| Service.CheckTransparencyRequirementsIff | src/main/java/com/euaiact/classifier/service/ClassificationService.java:92-102 | `checkTransparencyRequirements` holds exactly when one of the six transparency phrases occurs in the purpose, in any ASCII case |
| Service.MentionsAnyIgnoringCase | src/main/java/com/euaiact/classifier/service/ClassificationService.java:53-102 | searching the lower-cased purpose for a table of lower-case phrases finds one exactly when some phrase occurs in the purpose with case ignored |
| Service.Classify | src/main/java/com/euaiact/classifier/service/ClassificationService.java:13-52 | the response is fresh, and its fields are those of `Classification` of the request's name and purpose |
| Service.ClassificationEchoesRequest | src/main/java/com/euaiact/classifier/service/ClassificationService.java:15-16 | name and purpose are echoed unchanged |
| Service.ProhibitedPhraseDecides | src/main/java/com/euaiact/classifier/service/ClassificationService.java:19-66 | any of the eight prohibited phrases in the lower-cased purpose gives PROHIBITED, the flag, and exactly the three fixed recommendations |
| Service.ProhibitedIgnoresLowerTiers | src/main/java/com/euaiact/classifier/service/ClassificationService.java:22-30 | once a prohibited phrase occurs, two purposes get the same verdict whatever else they mention: the lower tiers are not consulted |
| Service.ProhibitedFlagMatchesCategory | src/main/java/com/euaiact/classifier/service/ClassificationService.java:19-48 | the flag is set exactly when the category is PROHIBITED |
| Service.HighRiskBeatsTransparency | src/main/java/com/euaiact/classifier/service/ClassificationService.java:39-91 | without a prohibited phrase, a high-risk domain or safety-component phrase gives High-Risk whatever the transparency phrases say |
| Service.LimitedRiskIff | src/main/java/com/euaiact/classifier/service/ClassificationService.java:42-103 | Limited Risk exactly when no prohibited, domain or safety phrase occurs and some transparency phrase does |
| Service.MinimalRiskIff | src/main/java/com/euaiact/classifier/service/ClassificationService.java:44-46 | Minimal Risk exactly when no phrase of any table occurs |
| Service.ClassificationWellFormed | src/main/java/com/euaiact/classifier/service/ClassificationService.java:23-49 | the category is one of the four documented values and the recommendation list is non-null and non-empty |
| Service.RecommendationCounts | src/main/java/com/euaiact/classifier/service/ClassificationService.java:24-142 | the list is the fixed table of the category, in order: 3, 10, 7 or 6 entries |
| Service.NoGeneratedRecommendationsForProhibited | src/main/java/com/euaiact/classifier/service/ClassificationService.java:111-143 | generateRecommendations has no case for PROHIBITED; that list comes only from the early return |
| Service.ClassificationIgnoresCase | src/main/java/com/euaiact/classifier/service/ClassificationService.java:55-94 | purposes equal up to ASCII case are classified alike |
| Service.ClassificationIgnoresName | src/main/java/com/euaiact/classifier/service/ClassificationService.java:54-103 | the name never affects the verdict |
| Service.EmotionRecognitionIsProhibited | src/main/java/com/euaiact/classifier/service/ClassificationService.java:63-101 | "emotion recognition" always gives PROHIBITED, so as a transparency phrase it never decides |
| Service.BiometricCategorizationIsHighRisk | src/main/java/com/euaiact/classifier/service/ClassificationService.java:72-102 | "biometric categorization" without a prohibited phrase always gives High-Risk |
| Service.LimitedRiskNeedsReachablePhrase | src/main/java/com/euaiact/classifier/service/ClassificationService.java:97-102 | a Limited Risk purpose mentions a chatbot, human interaction, content generation or a deepfake: the other two transparency phrases can never decide |
| Controller.LastMessageComplete | src/main/java/com/euaiact/classifier/controller/ClassificationController.java:145-149 | the last error reported against a field is the one whose message ends up in the map |
| Controller.LastMessageSound | src/main/java/com/euaiact/classifier/controller/ClassificationController.java:145-149 | the message in the map comes from an error on that field that no later error on the field follows |
| Controller.LastMessageIsLastReported | src/main/java/com/euaiact/classifier/controller/ClassificationController.java:145-149 | both directions together: the map holds a message exactly when it is the last one reported for the field |
| Controller.LastMessageFound | src/main/java/com/euaiact/classifier/controller/ClassificationController.java:145-149 | a field has a message exactly when some error names it |
| Controller.HandleValidationExceptions | src/main/java/com/euaiact/classifier/controller/ClassificationController.java:142-151 | the map's keys are exactly the fields with errors, and each holds the last message reported for its field |
| Controller.Classify | src/main/java/com/euaiact/classifier/controller/ClassificationController.java:58-151 | 200 exactly when the request breaks no constraint, with the service's response; otherwise 400 with the error map |
| Controller.ContentDispositionCarriesFileName | src/main/java/com/euaiact/classifier/controller/ClassificationController.java:133 | the file name is read back verbatim from the header, quotes included |
| Controller.EffectiveFileName | src/main/java/com/euaiact/classifier/controller/ClassificationController.java:65 | the attachment always has a non-empty name: the given one whenever a non-empty one was given, and otherwise the default |
| Controller.ContentDisposition | src/main/java/com/euaiact/classifier/controller/ClassificationController.java:133 | the header value is `attachment; filename="`, then the file name verbatim, then a closing quote |
| Controller.DefaultFileNameUsed | src/main/java/com/euaiact/classifier/controller/ClassificationController.java:65-133 | an absent or empty file name gives the attachment name EUAIAct_Results.txt |
| Controller.JoinLinesAppend | src/main/java/com/euaiact/classifier/controller/ClassificationController.java:70-126 | writing two blocks of lines one after the other gives the text of the joined block |
| Controller.SplitJoinLines | src/main/java/com/euaiact/classifier/controller/ClassificationController.java:70-126 | lines without newlines, once written, are read back exactly |
| Controller.WriteHeader | src/main/java/com/euaiact/classifier/controller/ClassificationController.java:70-73 | the buffer is extended by the header lines |
| Controller.WriteSystemInformation | src/main/java/com/euaiact/classifier/controller/ClassificationController.java:75-79 | the buffer is extended by the system-information lines, with name and purpose after their labels |
| Controller.WriteClassificationResult | src/main/java/com/euaiact/classifier/controller/ClassificationController.java:81-84 | the buffer is extended by the classification lines, with the category after its label |
| Controller.WriteExplanation | src/main/java/com/euaiact/classifier/controller/ClassificationController.java:88-108 | the buffer is extended by the explanation chosen by exact match on the category; other strings add nothing |
| Controller.WriteRecommendations | src/main/java/com/euaiact/classifier/controller/ClassificationController.java:114-118 | the buffer is extended by one "n. text" line per recommendation, numbered from 1 in list order |
| Controller.WriteDisclaimer | src/main/java/com/euaiact/classifier/controller/ClassificationController.java:121-126 | the buffer is extended by the disclaimer lines |
| Controller.DownloadResults | src/main/java/com/euaiact/classifier/controller/ClassificationController.java:64-140 | the answer is `DownloadResponse` of the response's fields: 500 when the category or the list is null, otherwise the attachment header and the report text |
| Controller.ReportText | src/main/java/com/euaiact/classifier/controller/ClassificationController.java:70-126 | the report text is the six sections in fixed order: header, system information, classification, explanation, recommendations, disclaimer |
| Controller.ReportLength | src/main/java/com/euaiact/classifier/controller/ClassificationController.java:70-126 | the report has 24 fixed lines, plus the explanation, plus one line per recommendation |
| Controller.ReportFieldLines | src/main/java/com/euaiact/classifier/controller/ClassificationController.java:76-84 | lines 7, 8 and 12 carry name, purpose and category verbatim after their labels |
| Controller.ReportExplanationLines | src/main/java/com/euaiact/classifier/controller/ClassificationController.java:87-108 | the explanation of the category starts on line 15 |
| Controller.ReportRecommendationLines | src/main/java/com/euaiact/classifier/controller/ClassificationController.java:112-118 | recommendation k is on its own line, reading "k+1. text", consecutively after the two title lines |
| Controller.ExplanationOnlyForDocumentedCategories | src/main/java/com/euaiact/classifier/controller/ClassificationController.java:88-108 | there is an explanation exactly for the four documented categories |
| Controller.DownloadFailsIff | src/main/java/com/euaiact/classifier/controller/ClassificationController.java:88-138 | the endpoint answers 500 exactly when the category or the recommendation list is null |
| Controller.ClassifiedResponseDownloads | src/main/java/com/euaiact/classifier/controller/ClassificationController.java:64-136 | a response from classify, sent back as JSON, always downloads: 200, the category on line 12, a non-empty explanation, and a line for every recommendation |
| Questionnaire.Scanner.constructor | EUAIActClassifer.java:13 | the cursor starts at the first input line |
| Questionnaire.Scanner.NextLine | EUAIActClassifer.java:24-182 | the line under the cursor is returned, and the cursor moves by one |
| Questionnaire.ParsedAnswerStartsWithY | EUAIActClassifer.java:180-184 | the trimmed, lower-cased answer starts with "y" exactly when its first character above U+0020 is 'y' or 'Y' |
| Questionnaire.BlankAnswerIsNo | EUAIActClassifer.java:182-183 | an empty or blank line is a "no" |
| Questionnaire.PaddedYesIsYes | EUAIActClassifer.java:182-183 | leading blanks, the case of the 'y' and whatever follows do not change a "yes" |
| Questionnaire.PromptYesNo | EUAIActClassifer.java:180-185 | exactly one line is read, and the answer is its parse |
| Questionnaire.AnyYesSnoc | EUAIActClassifer.java:70-76 | folding in one more answer ORs its parse into the result |
| Questionnaire.AnyYesIff | EUAIActClassifer.java:68-79 | the non-short-circuit OR is true exactly when some answer is a "yes" |
| Questionnaire.AnyYesOnSlice | EUAIActClassifer.java:68-79 | the same, stated over positions of the whole input |
| Questionnaire.CheckProhibitedUseCase | EUAIActClassifer.java:65-80 | exactly seven lines are read, whatever the answers, and the result is their OR |
| Questionnaire.CheckHighRiskUseCase | EUAIActClassifer.java:86-104 | exactly nine lines are read (eight domains and the safety component), and the result is their OR |
| Questionnaire.CheckTransparencyRequirements | EUAIActClassifer.java:110-120 | exactly three lines are read, and the result is their OR |
| Questionnaire.GenerateRecommendations | EUAIActClassifer.java:151-172 | the list is empty for every category |
| Questionnaire.RunQuestionnaire | EUAIActClassifer.java:10-59 | tier and lines read are those of `Assess`: no tier after 9 lines when a prohibited answer is yes, otherwise a tier after 21 lines |
| Questionnaire.ProhibitedAnswerStopsRun | EUAIActClassifer.java:31-38 | one "yes" among the seven prohibited answers ends the run after 9 lines with no tier |
| Questionnaire.NoProhibitedAnswerReadsAll | EUAIActClassifer.java:40-53 | with no prohibited "yes", all 21 lines are read and the tier is one of the three non-prohibited categories |
| Questionnaire.HighRiskBeatsTransparency | EUAIActClassifer.java:47-48 | a "yes" in the high-risk section gives High-Risk whatever the transparency answers |
| Questionnaire.LimitedRiskIff | EUAIActClassifer.java:47-53 | Limited Risk exactly when the only "yes" answers are in the transparency section |
| Questionnaire.HighRiskIff | EUAIActClassifer.java:31-48 | High-Risk exactly when no prohibited answer is a "yes" and some high-risk answer is |
| Questionnaire.MinimalRiskIff | EUAIActClassifer.java:31-53 | Minimal Risk exactly when none of the nineteen answers is a "yes" |
| Questionnaire.NameAndPurposeIgnored | EUAIActClassifer.java:23-27 | the name and purpose lines never change the outcome |
| Questionnaire.OnlyConsumedLinesMatter | EUAIActClassifer.java:24-53 | two inputs that agree on the lines a run reads give the same outcome |

## Left out

- Strings are sequences of Unicode characters. `String.length`, which the `@Size` bounds use, is modelled by `JavaLang.JavaLength`, counting UTF-16 code units. Three other consequences:
  - `toLowerCase` is modelled for ASCII letters only. Java's is locale- and Unicode-aware.
  - `trim` strips characters at or below U+0020, as Java's does.
  - `@NotBlank` holds when something is left after `trim` (Hibernate Validator's test), so it uses the same set of characters.
- Request.ConstraintViolations: reports errors in declaration order (name before purpose; `@NotBlank` before `@Size`). Bean Validation leaves the order unspecified. The properties proved do not depend on the order, except those of `Controller.HandleValidationExceptions` and the `Controller.LastMessage` lemmas: the error map keeps the last message reported for each field, and which one is last depends on the order. The 400 body of `Controller.Classify` inherits this.
- The Spring machinery around `classify` is not modelled. `Controller.Classify` computes the constraint violations itself and answers 400 when there are any. Left out:
  - how `@Valid` triggers validation;
  - how a `MethodArgumentNotValidException` reaches the handler;
  - dependency injection, CORS and Swagger annotations.
- Service.Classify: requires a non-null purpose. The service dereferences it; the controller only calls it after validation has rejected a null purpose.
- The response is exchanged as an abstract JSON object of five keys.
  - Jackson may also emit a "prohibited" key derived from the `isProhibited()` getter. This is not modelled.
  - Type-mismatched JSON values read back as null and are not rejected.
- Controller.DownloadResults: a null element inside the recommendation list would be written as "null". The list's elements are modelled as non-null strings.
- Controller.DownloadResults: the running count is an unbounded integer. Java's `int` would overflow only after 2^31 recommendations.
- Controller.DownloadResults: the report is modelled as characters. The following are not modelled:
  - its UTF-8 encoding;
  - the `Content-Length` and `Content-Type` headers;
  - `ByteArrayResource`.
  - An exception other than the two null dereferences (an I/O failure of the in-memory writer) cannot happen and is not modelled.
- Console output is not modelled:
  - the banner and the prompts;
  - `displayResult`, which only prints;
  - the warning printed for a prohibited system.
- Questionnaire.RunQuestionnaire: running out of input lines (`NoSuchElementException`) is excluded by precondition.
- Questionnaire.GenerateRecommendations: the list is built and then discarded by `main`; only its value is modelled.
- The React frontend, its axios client and its 19 flags are outside the model.
