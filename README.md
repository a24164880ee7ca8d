# Heart failure risk scorer — single-patient assessment

The heart failure prediction app's "Single Patient Prediction" page reads twelve
clinical fields for one patient. It then computes four results, each with
hard-coded rules:

1. a **risk score**: seven point rules are summed and capped at 100;
2. a **risk level**: LOW below 30, MODERATE below 60, HIGH otherwise, each with
   a fixed message;
3. a **breakdown of contributing factors**: two parallel lists, factor names and
   the points each factor added, built in a fixed order;
4. a **list of recommendations**: six advisories, each behind its own threshold,
   plus a reassuring fallback entry that appears alone when none of
   them applies.

This project models those four blocks in Dafny and proves what they promise.

The score, breakdown and recommendations blocks are each a sequence of `if`
statements that grows an accumulator or a list. The level block is different:
it is a single if/elif/else chain that assigns the label and the message and
grows nothing. Each block is modelled as an imperative `method` that follows
its statements one by one. Each method is proved equal to a pure specification
function, and the properties are proved as lemmas about those functions:

- **Score.** The score lies in [0, 100] and equals min(raw, 100). The raw sum
  lies in [0, 115], and the cap is reachable. Every score is a multiple of 5.
  The score never decreases with age, creatinine or any of the four conditions,
  and never increases with ejection fraction. It does not depend on creatinine
  phosphokinase, platelets, sodium, sex or follow-up time.
- **Level.** Each level is characterised exactly by its score range. The level
  is monotone in the score, and distinct levels have distinct labels and
  messages.
- **Breakdown.** The two lists have the same length and follow the fixed
  factor order, with no name repeated. A factor is listed exactly when its test
  holds, and each listed factor shows the points it added to the score. The
  points sum to the raw score, minus 10 when the age lies in (50, 60].
- **Recommendations.** The list is never empty and keeps the fixed order.
  Each advisory appears exactly when its threshold test holds.
  The fallback appears exactly when no test holds, and then it is the only
  entry.
- **Worked examples.** A high-risk patient (85), a patient with no risk (0), a
  moderate one (45) and the reachable scores next to the thresholds
  (25, 30, 55, 60).

Files, one module each:

- `seqs.dfy` (`Seqs`): generic `Map`, `Sum` and `When` (a zero- or
  one-element sequence), with their lemmas;
- `patient.dfy` (`Patient`): the patient record;
- `scoring.dfy` (`Scoring`): the score;
- `tier.dfy` (`Tier`): the level;
- `factors.dfy` (`Factors`): the breakdown;
- `recommendations.dfy` (`Recommendations`): the advisories;
- `assessment.dfy` (`Assessment`): the four blocks in sequence, and the worked
  examples.

Modelling choices:

- **Yes/no fields.** These fields (anaemia, diabetes, high blood pressure, sex,
  smoking) stay integers. The page tests them with `== 1`, so any other value
  counts as "no".
- **Serum creatinine.** This is an exact `real`, so the thresholds 1.2, 1.5
  and 2.0 compare exactly.
- **List entries.** The breakdown's factors are a `FactorKind` and the
  recommendations are an `Advice`. The strings the page shows are `Name(k)` and
  `Text(a)`, and these are the page's exact strings: `FactorNames` is the
  displayed name list and `RecommendationTexts` the displayed texts. The
  contracts of these two functions carry the membership and no-repeat results
  over to the strings. Their order is that of `ListedFactors` and `AdviceFor`,
  since each string list is that list mapped element by element.
- **One breakdown block.** A test that appends to both lists is the method
  `Factors.AppendIf`.
- **Breakdown points.** The breakdown recomputes the points of the three
  banded factors with conditional expressions of its own. These are
  `Factors.BreakdownPoints`, and `Factors.BreakdownPointsAgree` proves they equal
  the score's points for every listed factor.
- **Age in (50, 60].** The score adds 10 points for such an age, but the
  breakdown only lists age above 60. The model follows the code: age is then
  scored but not listed (`Factors.ListedVersusPoints`, `Factors.FactorScores`,
  `Assessment.ExampleAgeCountedNotListed`).
- **Unreachable boundary scores.** Every score is a multiple of 5, so the
  level boundaries can only be seen at 25/30 and 55/60. The scores 29 and 59
  never occur (`Scoring.ScoreMultipleOfFive`).

## Model

| member | source | states |
|---|---|---|
| Scoring.AgePoints | heart_failure_app.py:558-564 | age adds 25 exactly above 70, 15 exactly in (60, 70], 10 exactly in (50, 60], otherwise 0 |
| Scoring.EjectionFractionPoints | heart_failure_app.py:566-572 | ejection fraction adds 30 exactly below 30, 20 exactly in [30, 40), 10 exactly in [40, 50), otherwise 0 |
| Scoring.CreatininePoints | heart_failure_app.py:574-580 | creatinine adds 20 exactly above 2.0, 15 exactly in (1.5, 2.0], 10 exactly in (1.2, 1.5], otherwise 0 |
| Scoring.FlagPoints | heart_failure_app.py:582-590 | each yes/no condition adds 10 exactly when its field equals 1, otherwise 0 |
| Scoring.RawScore | heart_failure_app.py:556-590 | the uncapped sum of the seven rules lies in [0, 115] |
| Scoring.Score | heart_failure_app.py:592-593 | the score lies in [0, 100] and is min(raw, 100): the raw sum when it is at most 100, else 100 |
| Scoring.ComputeScore | heart_failure_app.py:556-593 | the accumulator grown by the seven if/elif blocks and then capped equals Score |
| Scoring.ScoreMultipleOfFive | heart_failure_app.py:556-593 | every score is a multiple of 5, so 29 and 59 never occur |
| Scoring.CapReached | heart_failure_app.py:592-593 | the highest raw sum, 115, is reachable and is cut to 100 |
| Scoring.ScoreMonotoneInAge | heart_failure_app.py:558-564 | raising the age never lowers the score |
| Scoring.ScoreAntitoneInEjectionFraction | heart_failure_app.py:566-572 | raising the ejection fraction never raises the score |
| Scoring.ScoreMonotoneInCreatinine | heart_failure_app.py:574-580 | raising the creatinine never lowers the score |
| Scoring.ScoreMonotoneInFlags | heart_failure_app.py:582-590 | switching any of the four conditions from 0 to 1 never lowers the score |
| Scoring.ScoreIgnoresOtherInputs | heart_failure_app.py:516-531 | patients that differ only in creatinine phosphokinase, platelets, sodium, sex or time get the same score |
| Tier.LevelOf | heart_failure_app.py:596-610 | LOW exactly below 30, MODERATE exactly in [30, 60), HIGH exactly from 60 up |
| Tier.Label | heart_failure_app.py:597-607 | the labels `LOW`, `MODERATE` and `HIGH` assigned at :597, :602 and :607, each naming exactly one level |
| Tier.Message | heart_failure_app.py:600-610 | the message assigned with each level at :600, :605 and :610 |
| Tier.DetermineRiskLevel | heart_failure_app.py:596-610 | the if/elif/else chain assigns the label and the message of the score's level |
| Tier.LabelsAndMessagesDistinct | heart_failure_app.py:596-610 | distinct levels have distinct labels and distinct messages |
| Tier.LevelMonotone | heart_failure_app.py:596-610 | a higher score never has a lower level |
| Tier.LevelBoundaries | heart_failure_app.py:596-610 | 29 is low and 30 moderate, 59 is moderate and 60 high, 0 is low and 100 high |
| Factors.Name | heart_failure_app.py:637-661 | the chart label appended for each factor at :637, :641, :645, :649, :653, :657 and :661 |
| Factors.Listed | heart_failure_app.py:636-660 | the seven breakdown tests (age > 60, ejection fraction < 50, creatinine > 1.2, and the four conditions == 1); a listed factor always added at least 10 points to the score |
| Factors.BreakdownPoints | heart_failure_app.py:636-662 | the points the breakdown appends: the conditional expressions at :638, :642 and :646 and the constant 10 at :650, :654, :658 and :662; every value lies in {10, 15, 20, 25, 30} |
| Factors.FactorNames | heart_failure_app.py:633-662 | the name list is as long as the points list, holds no name twice, and shows a factor's name exactly when its test holds |
| Factors.FactorScores | heart_failure_app.py:556-662 | every displayed point value is at least 10, and the values sum to the raw score, or to 10 less when the age is in (50, 60] |
| Factors.AppendIf | heart_failure_app.py:636-638 | one breakdown block appends the factor and its points exactly when its test holds, and otherwise changes neither list |
| Factors.ContributingFactors | heart_failure_app.py:633-662 | the two lists the seven blocks build are the listed factors and their score points |
| Factors.ListedChain | heart_failure_app.py:633-662 | the listed factors are exactly what the seven tests append, block after block |
| Factors.ScoresChain | heart_failure_app.py:633-662 | the points list is exactly what the seven blocks append, block after block |
| Factors.BreakdownPointsAgree | heart_failure_app.py:636-646 | for a listed factor, the breakdown's recomputed points equal the points the score gave it |
| Factors.ScoresPrefixMapped | heart_failure_app.py:633-662 | after each block, the points list holds the score points of the factors listed so far |
| Factors.ListedPrefixRanked | heart_failure_app.py:633-662 | after each block, the listed factors are in the fixed order and all come from the blocks run so far |
| Factors.ListedPrefixMembers | heart_failure_app.py:633-662 | after each block, a factor is listed exactly when its test holds and its block has run |
| Factors.ListedPrefixSum | heart_failure_app.py:633-662 | after each block, the points listed so far sum to the points of the factors listed so far |
| Factors.ListedFactorsExactly | heart_failure_app.py:636-661 | a factor is in the breakdown exactly when its test holds |
| Factors.ListedFactorsInOrder | heart_failure_app.py:633-662 | the breakdown follows the fixed factor order, with no factor twice |
| Factors.NameInjective | heart_failure_app.py:637-661 | distinct factors have distinct names |
| Factors.NamesOfListed | heart_failure_app.py:633-662 | the listed factors' names are distinct, and a factor's name is among them exactly when its test holds |
| Factors.ListedPointsPositive | heart_failure_app.py:636-661 | every listed factor adds at least 10 points to the score |
| Factors.ListedVersusPoints | heart_failure_app.py:558-564 | a factor other than age is listed exactly when it adds points; age is listed exactly when it adds 15 or 25, and an age in (50, 60] adds 10 without being listed |
| Factors.ListedPointsOf | heart_failure_app.py:636-661 | a factor's listed points are its score points, minus the 10 of an age in (50, 60] |
| Factors.ListedPointsAll | heart_failure_app.py:636-661 | the listed points total all seven rules' points, minus 10 for an age in (50, 60] |
| Factors.ListedPrefixSame | heart_failure_app.py:633-662 | patients that agree on the rule's fields have the same factors listed after each block |
| Factors.FactorsIgnoreOtherInputs | heart_failure_app.py:633-662 | the breakdown does not depend on creatinine phosphokinase, platelets, sodium, sex or time |
| Recommendations.Fires | heart_failure_app.py:718-733 | the six gates (ejection fraction < 40, creatinine > 1.5, age > 70, smoking, diabetes, high blood pressure == 1), none for the fallback; each gate fires only for a factor the score counted: ejection fraction in its 20- or 30-point band, creatinine in its 15- or 20-point band, age in its 25-point band, the condition's 10 points |
| Recommendations.Text | heart_failure_app.py:716-737 | each displayed text begins with its advisory's emoji |
| Recommendations.AdviceFor | heart_failure_app.py:716-737 | the recommendation list is never empty |
| Recommendations.RecommendationTexts | heart_failure_app.py:716-737 | at least one text is shown, no text twice, and an advisory's text is shown exactly when the advisory is |
| Recommendations.BuildRecommendations | heart_failure_app.py:716-737 | the list the six tests and the fallback build is the specified advice list |
| Recommendations.WarningsUpToRanked | heart_failure_app.py:716-734 | after each test, the advisories are in the fixed order and all come from the tests run so far |
| Recommendations.WarningsUpToMembers | heart_failure_app.py:716-734 | after each test, an advisory is present exactly when its test holds and has run |
| Recommendations.WarningShownIff | heart_failure_app.py:718-734 | each of the six advisories is shown exactly when its threshold test holds |
| Recommendations.GoodNewsIff | heart_failure_app.py:736-737 | the fallback is shown exactly when none of the six tests holds, and then it is the only entry |
| Recommendations.AdviceInOrder | heart_failure_app.py:716-737 | the advisories follow the fixed order, with none repeated |
| Recommendations.TextsOfAdvice | heart_failure_app.py:716-737 | the texts of the advisories shown are distinct, and an advisory's text is among them exactly when the advisory is shown |
| Recommendations.TextInjective | heart_failure_app.py:719-737 | distinct advisories have distinct texts |
| Recommendations.EmojiInjective | heart_failure_app.py:719-737 | distinct advisories lead with distinct emoji |
| Recommendations.TextsDetermineAdvice | heart_failure_app.py:719-737 | a displayed text determines its advisory |
| Recommendations.RecommendationsIgnoreOtherInputs | heart_failure_app.py:716-737 | the recommendations do not depend on creatinine phosphokinase, platelets, sodium, sex or time |
| Assessment.AssessPatient | heart_failure_app.py:556-737 | the assessment's score, level, breakdown and recommendations are the specified values; the breakdown lists run in parallel and there is at least one recommendation |
| Assessment.ExampleHighRisk | heart_failure_app.py:556-610 | age 75, ejection fraction 25, creatinine 2.5 and anaemia score 85, high |
| Assessment.ExampleHighRiskListed | heart_failure_app.py:636-661 | that patient has Age, Ejection Fraction, Serum Creatinine and Anaemia listed, in that order |
| Assessment.ExampleHighRiskBreakdown | heart_failure_app.py:633-662 | that patient's breakdown is Age, Ejection Fraction, Serum Creatinine, Anaemia with 25, 30, 20, 10 |
| Assessment.ExampleHighRiskAdvice | heart_failure_app.py:716-737 | that patient gets the ejection fraction, creatinine and age advisories, in that order |
| Assessment.ExampleNoRisk | heart_failure_app.py:556-610 | age 40, ejection fraction 55, creatinine 0.9 and no conditions score 0, low |
| Assessment.ExampleNoRiskListed | heart_failure_app.py:636-661 | that patient has no factor listed |
| Assessment.ExampleNoRiskBreakdown | heart_failure_app.py:633-662 | that patient's breakdown has no names and no points |
| Assessment.ExampleNoRiskAdvice | heart_failure_app.py:736-737 | that patient gets the fallback entry alone |
| Assessment.ExampleModerateRisk | heart_failure_app.py:556-610 | age 65, ejection fraction 45, creatinine 1.3 and smoking score 45, moderate |
| Assessment.ExampleModerateRiskListed | heart_failure_app.py:636-661 | that patient has Age, Ejection Fraction, Serum Creatinine and Smoking listed, in that order |
| Assessment.ExampleModerateRiskBreakdown | heart_failure_app.py:633-662 | that patient's breakdown is Age, Ejection Fraction, Serum Creatinine, Smoking with 15, 10, 10, 10 |
| Assessment.ExampleModerateRiskAdvice | heart_failure_app.py:716-737 | that patient gets only the smoking advisory |
| Assessment.ExampleAgeCountedNotListed | heart_failure_app.py:563-564 | age 55 adds 10 to the score, yet that patient has no factor listed |
| Assessment.ExampleAgeCountedNotListedAdvice | heart_failure_app.py:736-737 | that patient gets the fallback entry alone |
| Assessment.ExampleLevelBoundaries | heart_failure_app.py:596-610 | reachable patients score 25 (low), 30 (moderate), 55 (moderate) and 60 (high) |
| Assessment.AssessmentIgnoresOtherInputs | heart_failure_app.py:516-531 | score, breakdown and recommendations do not depend on creatinine phosphokinase, platelets, sodium, sex or time |

## Left out

- The Streamlit page itself is not modelled: its layout, headers, HTML cards,
  the patient summary table and the `for rec` loop that renders each
  recommendation as Markdown. It is presentation only.
- The input ranges, defaults and steps of the form's widgets are not modelled.
  The rules behave the same for every integer or real, so the model
  accepts any value.
- The `input_data` DataFrame is not modelled, because no rule reads it.
- The tier's colour and emoji (`risk_color`, `risk_emoji`) are left out, as is
  the breakdown's bar chart and its "no significant risk factors" message.
  These are display only; the level's label and message are modelled.
- Batch prediction, CSV upload and the analytics and model-performance pages
  are outside the single-patient assessment and are not part of this model.
- The accuracy and other performance figures on the app's pages are fixed
  constants for display, not computed by the app.
- Serum creatinine is an exact real, not an IEEE double. A value that is
  very close to a threshold could compare differently in binary floating
  point.
