/** The whole single-patient assessment: score, level, breakdown and
    recommendations, as the prediction page computes them one after another. */
module Assessment {
  import opened Patient
  import opened Scoring
  import opened Tier
  import opened Factors
  import opened Recommendations

  datatype RiskAssessment = RiskAssessment(
    score: int,
    riskLevel: string,
    riskMessage: string,
    factors: seq<FactorKind>,
    scores: seq<int>,
    recommendations: seq<Advice>)

  /** The assessment of one patient: each part is the specified value, and the
      parts agree with each other (the level is that of the score, the two
      breakdown lists run in parallel, there is at least one recommendation). */
  method AssessPatient(p: PatientRecord) returns (a: RiskAssessment)
    ensures a.score == Score(p) && 0 <= a.score <= MaxScore
    ensures a.riskLevel == Label(LevelOf(a.score)) && a.riskMessage == Message(LevelOf(a.score))
    ensures a.factors == ListedFactors(p) && a.scores == FactorScores(p)
    ensures |a.factors| == |a.scores|
    ensures a.recommendations == AdviceFor(p) && |a.recommendations| >= 1
  {
    var riskScore := ComputeScore(p);
    var riskLevel, riskMessage := DetermineRiskLevel(riskScore);
    var factors, scores := ContributingFactors(p);
    var recommendations := BuildRecommendations(p);
    a := RiskAssessment(riskScore, riskLevel, riskMessage, factors, scores, recommendations);
  }

  /** Age 75, ejection fraction 25, creatinine 2.5 and anaemia: 25 + 30 + 20 + 10 = 85, high. */
  lemma ExampleHighRisk()
    ensures var p := PatientRecord(75, 1, 250, 0, 25, 0, 250000, 2.5, 135, 0, 0, 100);
      Score(p) == 85 && LevelOf(Score(p)) == High
  {
  }

  /** The same patient has four factors listed. */
  lemma ExampleHighRiskListed()
    ensures var p := PatientRecord(75, 1, 250, 0, 25, 0, 250000, 2.5, 135, 0, 0, 100);
      ListedFactors(p) == [Age, EjectionFraction, SerumCreatinine, Anaemia]
  {
    var p := PatientRecord(75, 1, 250, 0, 25, 0, 250000, 2.5, 135, 0, 0, 100);
    assert ListedPrefix(p, 1) == [Age];
    assert ListedPrefix(p, 2) == [Age, EjectionFraction];
    assert ListedPrefix(p, 3) == [Age, EjectionFraction, SerumCreatinine];
    assert ListedPrefix(p, 4) == [Age, EjectionFraction, SerumCreatinine, Anaemia];
    assert ListedPrefix(p, 5) == [Age, EjectionFraction, SerumCreatinine, Anaemia];
    assert ListedPrefix(p, 6) == [Age, EjectionFraction, SerumCreatinine, Anaemia];
  }

  /** The same patient's breakdown shows those four factors with the points they added. */
  lemma ExampleHighRiskBreakdown()
    ensures var p := PatientRecord(75, 1, 250, 0, 25, 0, 250000, 2.5, 135, 0, 0, 100);
      FactorNames(p) == ["Age", "Ejection Fraction", "Serum Creatinine", "Anaemia"]
      && FactorScores(p) == [25, 30, 20, 10]
  {
    ExampleHighRiskListed();
  }

  /** The same patient receives three advisories, in order. */
  lemma ExampleHighRiskAdvice()
    ensures var p := PatientRecord(75, 1, 250, 0, 25, 0, 250000, 2.5, 135, 0, 0, 100);
      AdviceFor(p) == [CriticalEjectionFraction, ElevatedCreatinine, AgeMonitoring]
  {
    var p := PatientRecord(75, 1, 250, 0, 25, 0, 250000, 2.5, 135, 0, 0, 100);
    assert WarningsUpTo(p, 1) == [CriticalEjectionFraction];
    assert WarningsUpTo(p, 2) == [CriticalEjectionFraction, ElevatedCreatinine];
    assert WarningsUpTo(p, 3) == [CriticalEjectionFraction, ElevatedCreatinine, AgeMonitoring];
    assert WarningsUpTo(p, 4) == [CriticalEjectionFraction, ElevatedCreatinine, AgeMonitoring];
    assert WarningsUpTo(p, 5) == [CriticalEjectionFraction, ElevatedCreatinine, AgeMonitoring];
    assert WarningsUpTo(p, 6) == [CriticalEjectionFraction, ElevatedCreatinine, AgeMonitoring];
  }

  /** Age 40, ejection fraction 55, creatinine 0.9, no conditions: score 0 and low. */
  lemma ExampleNoRisk()
    ensures var p := PatientRecord(40, 0, 250, 0, 55, 0, 250000, 0.9, 135, 0, 0, 100);
      Score(p) == 0 && LevelOf(Score(p)) == Low
  {
  }

  /** The same patient has no factor listed. */
  lemma ExampleNoRiskListed()
    ensures var p := PatientRecord(40, 0, 250, 0, 55, 0, 250000, 0.9, 135, 0, 0, 100);
      ListedFactors(p) == []
  {
    var p := PatientRecord(40, 0, 250, 0, 55, 0, 250000, 0.9, 135, 0, 0, 100);
    assert ListedPrefix(p, 1) == [];
    assert ListedPrefix(p, 2) == [];
    assert ListedPrefix(p, 3) == [];
    assert ListedPrefix(p, 4) == [];
    assert ListedPrefix(p, 5) == [];
    assert ListedPrefix(p, 6) == [];
  }

  /** The same patient's breakdown is empty. */
  lemma ExampleNoRiskBreakdown()
    ensures var p := PatientRecord(40, 0, 250, 0, 55, 0, 250000, 0.9, 135, 0, 0, 100);
      FactorNames(p) == [] && FactorScores(p) == []
  {
    ExampleNoRiskListed();
  }

  /** The same patient gets the fallback recommendation alone. */
  lemma ExampleNoRiskAdvice()
    ensures var p := PatientRecord(40, 0, 250, 0, 55, 0, 250000, 0.9, 135, 0, 0, 100);
      AdviceFor(p) == [GoodNews]
  {
    var p := PatientRecord(40, 0, 250, 0, 55, 0, 250000, 0.9, 135, 0, 0, 100);
    assert WarningsUpTo(p, 1) == [];
    assert WarningsUpTo(p, 2) == [];
    assert WarningsUpTo(p, 3) == [];
    assert WarningsUpTo(p, 4) == [];
    assert WarningsUpTo(p, 5) == [];
    assert WarningsUpTo(p, 6) == [];
  }

  /** Age 65, ejection fraction 45, creatinine 1.3 and smoking: 15 + 10 + 10 + 10 = 45, moderate. */
  lemma ExampleModerateRisk()
    ensures var p := PatientRecord(65, 0, 250, 0, 45, 0, 250000, 1.3, 135, 0, 1, 100);
      Score(p) == 45 && LevelOf(Score(p)) == Moderate
  {
  }

  /** The same patient has four factors listed. */
  lemma ExampleModerateRiskListed()
    ensures var p := PatientRecord(65, 0, 250, 0, 45, 0, 250000, 1.3, 135, 0, 1, 100);
      ListedFactors(p) == [Age, EjectionFraction, SerumCreatinine, Smoking]
  {
    var p := PatientRecord(65, 0, 250, 0, 45, 0, 250000, 1.3, 135, 0, 1, 100);
    assert ListedPrefix(p, 1) == [Age];
    assert ListedPrefix(p, 2) == [Age, EjectionFraction];
    assert ListedPrefix(p, 3) == [Age, EjectionFraction, SerumCreatinine];
    assert ListedPrefix(p, 4) == [Age, EjectionFraction, SerumCreatinine];
    assert ListedPrefix(p, 5) == [Age, EjectionFraction, SerumCreatinine];
    assert ListedPrefix(p, 6) == [Age, EjectionFraction, SerumCreatinine];
  }

  /** The same patient's breakdown shows those four factors with the points they added. */
  lemma ExampleModerateRiskBreakdown()
    ensures var p := PatientRecord(65, 0, 250, 0, 45, 0, 250000, 1.3, 135, 0, 1, 100);
      FactorNames(p) == ["Age", "Ejection Fraction", "Serum Creatinine", "Smoking"]
      && FactorScores(p) == [15, 10, 10, 10]
  {
    ExampleModerateRiskListed();
  }

  /** The same patient receives only the smoking advisory. */
  lemma ExampleModerateRiskAdvice()
    ensures var p := PatientRecord(65, 0, 250, 0, 45, 0, 250000, 1.3, 135, 0, 1, 100);
      AdviceFor(p) == [SmokingCessation]
  {
    var p := PatientRecord(65, 0, 250, 0, 45, 0, 250000, 1.3, 135, 0, 1, 100);
    assert WarningsUpTo(p, 1) == [];
    assert WarningsUpTo(p, 2) == [];
    assert WarningsUpTo(p, 3) == [];
    assert WarningsUpTo(p, 4) == [SmokingCessation];
    assert WarningsUpTo(p, 5) == [SmokingCessation];
    assert WarningsUpTo(p, 6) == [SmokingCessation];
  }

  /** Age 55 adds 10 points but no factor is listed: the breakdown's points then
      sum to 10 less than the score. */
  lemma ExampleAgeCountedNotListed()
    ensures var p := PatientRecord(55, 0, 250, 0, 60, 0, 250000, 1.0, 135, 0, 0, 100);
      Score(p) == 10 && ListedFactors(p) == []
  {
    var p := PatientRecord(55, 0, 250, 0, 60, 0, 250000, 1.0, 135, 0, 0, 100);
    assert ListedPrefix(p, 1) == [];
    assert ListedPrefix(p, 2) == [];
    assert ListedPrefix(p, 3) == [];
    assert ListedPrefix(p, 4) == [];
    assert ListedPrefix(p, 5) == [];
    assert ListedPrefix(p, 6) == [];
  }

  /** The same patient gets the fallback recommendation alone. */
  lemma ExampleAgeCountedNotListedAdvice()
    ensures var p := PatientRecord(55, 0, 250, 0, 60, 0, 250000, 1.0, 135, 0, 0, 100);
      AdviceFor(p) == [GoodNews]
  {
    var p := PatientRecord(55, 0, 250, 0, 60, 0, 250000, 1.0, 135, 0, 0, 100);
    assert WarningsUpTo(p, 1) == [];
    assert WarningsUpTo(p, 2) == [];
    assert WarningsUpTo(p, 3) == [];
    assert WarningsUpTo(p, 4) == [];
    assert WarningsUpTo(p, 5) == [];
  }

  /** Scores either side of the two level thresholds are reachable (25, 30, 55
      and 60); 29 and 59 are not, every score being a multiple of 5. */
  lemma ExampleLevelBoundaries()
    ensures var p := PatientRecord(75, 0, 250, 0, 60, 0, 250000, 1.0, 135, 0, 0, 100);
      Score(p) == 25 && LevelOf(Score(p)) == Low
    ensures var p := PatientRecord(40, 0, 250, 0, 25, 0, 250000, 1.0, 135, 0, 0, 100);
      Score(p) == 30 && LevelOf(Score(p)) == Moderate
    ensures var p := PatientRecord(75, 0, 250, 0, 25, 0, 250000, 1.0, 135, 0, 0, 100);
      Score(p) == 55 && LevelOf(Score(p)) == Moderate
    ensures var p := PatientRecord(40, 1, 250, 0, 25, 0, 250000, 2.5, 135, 0, 0, 100);
      Score(p) == 60 && LevelOf(Score(p)) == High
  {
  }

  /** The whole assessment depends only on the seven fields the rule reads. */
  lemma AssessmentIgnoresOtherInputs(p: PatientRecord, q: PatientRecord)
    requires SameRuleInputs(p, q)
    ensures Score(p) == Score(q)
    ensures FactorNames(p) == FactorNames(q) && FactorScores(p) == FactorScores(q)
    ensures AdviceFor(p) == AdviceFor(q)
  {
    ScoreIgnoresOtherInputs(p, q);
    FactorsIgnoreOtherInputs(p, q);
    RecommendationsIgnoreOtherInputs(p, q);
  }
}
