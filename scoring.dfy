/** The additive point rule that gives the patient's risk score. */
module Scoring {
  import opened Patient

  /** The score shown to the user never exceeds this. */
  const MaxScore: int := 100

  /** Points for age: exactly one of the bands >70, >60, >50 or none applies. */
  function AgePoints(age: int): (pts: int)
    ensures pts in {0, 10, 15, 25}
    ensures 0 <= pts <= 25
    ensures pts == 25 <==> age > 70
    ensures pts == 15 <==> 60 < age <= 70
    ensures pts == 10 <==> 50 < age <= 60
    ensures pts == 0 <==> age <= 50
  {
    if age > 70 then 25 else if age > 60 then 15 else if age > 50 then 10 else 0
  }

  /** Points for ejection fraction (lower is worse): bands <30, <40, <50 or none. */
  function EjectionFractionPoints(ef: int): (pts: int)
    ensures pts in {0, 10, 20, 30}
    ensures 0 <= pts <= 30
    ensures pts == 30 <==> ef < 30
    ensures pts == 20 <==> 30 <= ef < 40
    ensures pts == 10 <==> 40 <= ef < 50
    ensures pts == 0 <==> ef >= 50
  {
    if ef < 30 then 30 else if ef < 40 then 20 else if ef < 50 then 10 else 0
  }

  /** Points for serum creatinine (higher is worse): bands >2.0, >1.5, >1.2 or none. */
  function CreatininePoints(sc: real): (pts: int)
    ensures pts in {0, 10, 15, 20}
    ensures 0 <= pts <= 20
    ensures pts == 20 <==> sc > 2.0
    ensures pts == 15 <==> 1.5 < sc <= 2.0
    ensures pts == 10 <==> 1.2 < sc <= 1.5
    ensures pts == 0 <==> sc <= 1.2
  {
    if sc > 2.0 then 20 else if sc > 1.5 then 15 else if sc > 1.2 then 10 else 0
  }

  /** Points for a yes/no condition: 10 exactly when the field is 1. */
  function FlagPoints(flag: int): (pts: int)
    ensures pts in {0, 10}
    ensures 0 <= pts <= 10
    ensures pts == 10 <==> flag == 1
  {
    if flag == 1 then 10 else 0
  }

  /** The sum of all fired points before the cap; the largest possible sum is
      25 + 30 + 20 + 4 * 10 = 115. */
  function RawScore(p: PatientRecord): (raw: int)
    ensures 0 <= raw <= 115
  {
    AgePoints(p.age) + EjectionFractionPoints(p.ejectionFraction)
    + CreatininePoints(p.serumCreatinine)
    + FlagPoints(p.anaemia) + FlagPoints(p.diabetes)
    + FlagPoints(p.highBloodPressure) + FlagPoints(p.smoking)
  }

  /** The risk score: the raw sum capped at 100, i.e. min(raw, 100). */
  function Score(p: PatientRecord): (score: int)
    ensures 0 <= score <= MaxScore
    ensures score <= RawScore(p)
    ensures RawScore(p) <= MaxScore ==> score == RawScore(p)
    ensures RawScore(p) >= MaxScore ==> score == MaxScore
  {
    var raw := RawScore(p);
    if raw <= MaxScore then raw else MaxScore
  }

  /** The scoring block as the form runs it: one accumulator grown band by band,
      then capped. */
  method ComputeScore(p: PatientRecord) returns (riskScore: int)
    ensures riskScore == Score(p)
  {
    riskScore := 0;

    if p.age > 70 {
      riskScore := riskScore + 25;
    } else if p.age > 60 {
      riskScore := riskScore + 15;
    } else if p.age > 50 {
      riskScore := riskScore + 10;
    }
    assert riskScore == AgePoints(p.age);

    if p.ejectionFraction < 30 {
      riskScore := riskScore + 30;
    } else if p.ejectionFraction < 40 {
      riskScore := riskScore + 20;
    } else if p.ejectionFraction < 50 {
      riskScore := riskScore + 10;
    }
    assert riskScore == AgePoints(p.age) + EjectionFractionPoints(p.ejectionFraction);

    if p.serumCreatinine > 2.0 {
      riskScore := riskScore + 20;
    } else if p.serumCreatinine > 1.5 {
      riskScore := riskScore + 15;
    } else if p.serumCreatinine > 1.2 {
      riskScore := riskScore + 10;
    }
    ghost var banded := AgePoints(p.age) + EjectionFractionPoints(p.ejectionFraction)
      + CreatininePoints(p.serumCreatinine);
    assert riskScore == banded;

    if p.anaemia == 1 {
      riskScore := riskScore + 10;
    }
    if p.diabetes == 1 {
      riskScore := riskScore + 10;
    }
    if p.highBloodPressure == 1 {
      riskScore := riskScore + 10;
    }
    if p.smoking == 1 {
      riskScore := riskScore + 10;
    }
    assert riskScore == RawScore(p);

    riskScore := if riskScore < MaxScore then riskScore else MaxScore;
  }

  /** Every band and flag awards a multiple of 5, so every score is one too:
      29 and 59 are never produced. */
  lemma ScoreMultipleOfFive(p: PatientRecord)
    ensures Score(p) % 5 == 0
    ensures Score(p) != 29 && Score(p) != 59
  {
    var a, e, c := AgePoints(p.age), EjectionFractionPoints(p.ejectionFraction), CreatininePoints(p.serumCreatinine);
    var f1, f2, f3, f4 := FlagPoints(p.anaemia), FlagPoints(p.diabetes), FlagPoints(p.highBloodPressure), FlagPoints(p.smoking);
    assert a % 5 == 0 && e % 5 == 0 && c % 5 == 0;
    assert f1 % 5 == 0 && f2 % 5 == 0 && f3 % 5 == 0 && f4 % 5 == 0;
    SumOfMultiplesOfFive(a, e);
    SumOfMultiplesOfFive(a + e, c);
    SumOfMultiplesOfFive(a + e + c, f1);
    SumOfMultiplesOfFive(a + e + c + f1, f2);
    SumOfMultiplesOfFive(a + e + c + f1 + f2, f3);
    SumOfMultiplesOfFive(a + e + c + f1 + f2 + f3, f4);
  }

  lemma SumOfMultiplesOfFive(a: int, b: int)
    requires a % 5 == 0 && b % 5 == 0
    ensures (a + b) % 5 == 0
  {
  }

  /** The cap is reachable: the highest raw sum, 115, is cut to 100. */
  lemma CapReached()
    ensures var p := PatientRecord(75, 1, 0, 1, 25, 1, 0, 2.5, 0, 0, 1, 0);
      RawScore(p) == 115 && Score(p) == MaxScore
  {
  }

  /** Older is never safer: the score does not decrease with age. */
  lemma ScoreMonotoneInAge(p: PatientRecord, age: int)
    requires p.age <= age
    ensures Score(p) <= Score(p.(age := age))
  {
  }

  /** A higher ejection fraction never raises the score. */
  lemma ScoreAntitoneInEjectionFraction(p: PatientRecord, ef: int)
    requires p.ejectionFraction <= ef
    ensures Score(p.(ejectionFraction := ef)) <= Score(p)
  {
  }

  /** A higher serum creatinine never lowers the score. */
  lemma ScoreMonotoneInCreatinine(p: PatientRecord, sc: real)
    requires p.serumCreatinine <= sc
    ensures Score(p) <= Score(p.(serumCreatinine := sc))
  {
  }

  /** Switching any of the four conditions from 0 to 1 never lowers the score. */
  lemma ScoreMonotoneInFlags(p: PatientRecord)
    ensures Score(p.(anaemia := 0)) <= Score(p.(anaemia := 1))
    ensures Score(p.(diabetes := 0)) <= Score(p.(diabetes := 1))
    ensures Score(p.(highBloodPressure := 0)) <= Score(p.(highBloodPressure := 1))
    ensures Score(p.(smoking := 0)) <= Score(p.(smoking := 1))
  {
  }

  /** The score reads only age, ejection fraction, creatinine and the four conditions. */
  lemma ScoreIgnoresOtherInputs(p: PatientRecord, q: PatientRecord)
    requires SameRuleInputs(p, q)
    ensures Score(p) == Score(q)
  {
  }
}
