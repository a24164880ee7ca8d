/** The "contributing risk factors" breakdown: two parallel lists, factor names
    and their points, built in a fixed order. */
module Factors {
  import opened Seqs
  import opened Patient
  import opened Scoring

  datatype FactorKind = Age | EjectionFraction | SerumCreatinine | Anaemia | Diabetes | HighBloodPressure | Smoking

  /** The order in which the breakdown considers the factors. */
  const FactorOrder: seq<FactorKind> :=
    [Age, EjectionFraction, SerumCreatinine, Anaemia, Diabetes, HighBloodPressure, Smoking]

  /** Position of a factor in FactorOrder. */
  function FactorRank(k: FactorKind): int
  {
    match k
    case Age => 0
    case EjectionFraction => 1
    case SerumCreatinine => 2
    case Anaemia => 3
    case Diabetes => 4
    case HighBloodPressure => 5
    case Smoking => 6
  }

  /** The label the breakdown chart shows for a factor. */
  function Name(k: FactorKind): string
  {
    match k
    case Age => "Age"
    case EjectionFraction => "Ejection Fraction"
    case SerumCreatinine => "Serum Creatinine"
    case Anaemia => "Anaemia"
    case Diabetes => "Diabetes"
    case HighBloodPressure => "High BP"
    case Smoking => "Smoking"
  }

  /** Whether the breakdown lists factor `k` for patient `p`: a listed factor
      always added points to the score. Age is listed only above 60, although
      the score already counts it above 50. */
  function Listed(p: PatientRecord, k: FactorKind): (listed: bool)
    ensures listed ==> Points(p, k) >= 10
  {
    match k
    case Age => p.age > 60
    case EjectionFraction => p.ejectionFraction < 50
    case SerumCreatinine => p.serumCreatinine > 1.2
    case Anaemia => p.anaemia == 1
    case Diabetes => p.diabetes == 1
    case HighBloodPressure => p.highBloodPressure == 1
    case Smoking => p.smoking == 1
  }

  /** The points factor `k` adds to the raw score of `p`. */
  function Points(p: PatientRecord, k: FactorKind): int
  {
    match k
    case Age => AgePoints(p.age)
    case EjectionFraction => EjectionFractionPoints(p.ejectionFraction)
    case SerumCreatinine => CreatininePoints(p.serumCreatinine)
    case Anaemia => FlagPoints(p.anaemia)
    case Diabetes => FlagPoints(p.diabetes)
    case HighBloodPressure => FlagPoints(p.highBloodPressure)
    case Smoking => FlagPoints(p.smoking)
  }

  /** The listed factors: each factor whose test holds, taken in FactorOrder. */
  function ListedFactors(p: PatientRecord): seq<FactorKind>
  {
    ListedPrefix(p, |FactorOrder|)
  }

  /** The names the breakdown shows, one per listed factor: as many as there
      are point values, none repeated, and a factor's name is shown exactly
      when its test holds. */
  function FactorNames(p: PatientRecord): (names: seq<string>)
    ensures |names| == |FactorScores(p)|
    ensures forall i, j :: 0 <= i < j < |names| ==> names[i] != names[j]
    ensures forall k :: Name(k) in names <==> Listed(p, k)
  {
    NamesOfListed(p);
    Map(ListedFactors(p), Name)
  }

  /** The points the breakdown shows, the points each listed factor added to
      the score: each is at least 10, and together they make up the raw score,
      except that an age in (50, 60] is counted in the score and missing here. */
  function FactorScores(p: PatientRecord): (scores: seq<int>)
    ensures forall i :: 0 <= i < |scores| ==> scores[i] >= 10
    ensures Sum(scores) == RawScore(p) - (if 50 < p.age <= 60 then 10 else 0)
  {
    ListedPointsPositive(p);
    ListedPrefixSum(p, |FactorOrder|);
    ListedPointsAll(p);
    Map(ListedFactors(p), PointsFor(p))
  }

  /** Points(p, _) as a function value. */
  function PointsFor(p: PatientRecord): FactorKind -> int
  {
    k => Points(p, k)
  }

  /** The listed factors among the first `n` of FactorOrder. */
  function ListedPrefix(p: PatientRecord, n: nat): seq<FactorKind>
    requires n <= |FactorOrder|
  {
    if n == 0 then []
    else
      var k := FactorOrder[n - 1];
      ListedPrefix(p, n - 1) + When(Listed(p, k), k)
  }

  /** The points the breakdown appends for the listed factors among the first `n`. */
  function ScoresPrefix(p: PatientRecord, n: nat): seq<int>
    requires n <= |FactorOrder|
  {
    if n == 0 then []
    else
      var k := FactorOrder[n - 1];
      ScoresPrefix(p, n - 1) + When(Listed(p, k), BreakdownPoints(p, k))
  }

  /** The points the breakdown itself appends for a listed factor: the banded
      factors are recomputed there with conditional expressions of their own.
      Only Age's last arm (10) is unreachable, since its test `age > 60`
      excludes every age that would reach it. Every value appended is between
      10 and 30. */
  function BreakdownPoints(p: PatientRecord, k: FactorKind): (pts: int)
    ensures pts in {10, 15, 20, 25, 30}
  {
    match k
    case Age => if p.age > 70 then 25 else if p.age > 60 then 15 else 10
    case EjectionFraction => if p.ejectionFraction < 30 then 30 else if p.ejectionFraction < 40 then 20 else 10
    case SerumCreatinine => if p.serumCreatinine > 2.0 then 20 else if p.serumCreatinine > 1.5 then 15 else 10
    case _ => 10
  }

  /** One block of the breakdown: when `test` holds, append `k` to the factors
      and `points` to the scores; otherwise leave both lists as they are. */
  method AppendIf(factors: seq<FactorKind>, scores: seq<int>, test: bool, k: FactorKind, points: int)
    returns (factors': seq<FactorKind>, scores': seq<int>)
    ensures factors' == factors + When(test, k)
    ensures scores' == scores + When(test, points)
  {
    factors', scores' := factors, scores;
    if test {
      factors' := factors' + [k];
      scores' := scores' + [points];
    }
  }

  /** The breakdown as the form builds it: each factor's test in turn, appending
      the factor and its points to the two lists. */
  method ContributingFactors(p: PatientRecord) returns (factors: seq<FactorKind>, scores: seq<int>)
    ensures factors == ListedFactors(p)
    ensures scores == FactorScores(p)
  {
    factors := [];
    scores := [];

    factors, scores := AppendIf(factors, scores,
      p.age > 60, Age, BreakdownPoints(p, Age));

    factors, scores := AppendIf(factors, scores,
      p.ejectionFraction < 50, EjectionFraction, BreakdownPoints(p, EjectionFraction));

    factors, scores := AppendIf(factors, scores,
      p.serumCreatinine > 1.2, SerumCreatinine, BreakdownPoints(p, SerumCreatinine));

    factors, scores := AppendIf(factors, scores,
      p.anaemia == 1, Anaemia, BreakdownPoints(p, Anaemia));

    factors, scores := AppendIf(factors, scores,
      p.diabetes == 1, Diabetes, BreakdownPoints(p, Diabetes));

    factors, scores := AppendIf(factors, scores,
      p.highBloodPressure == 1, HighBloodPressure, BreakdownPoints(p, HighBloodPressure));

    factors, scores := AppendIf(factors, scores,
      p.smoking == 1, Smoking, BreakdownPoints(p, Smoking));

    ListedChain(p);
    ScoresChain(p);
  }

  /** The factor list the seven blocks build, one block after another. */
  lemma ListedChain(p: PatientRecord)
    ensures ListedFactors(p) == []
      + When(p.age > 60, Age)
      + When(p.ejectionFraction < 50, EjectionFraction)
      + When(p.serumCreatinine > 1.2, SerumCreatinine)
      + When(p.anaemia == 1, Anaemia)
      + When(p.diabetes == 1, Diabetes)
      + When(p.highBloodPressure == 1, HighBloodPressure)
      + When(p.smoking == 1, Smoking)
  {
    assert ListedPrefix(p, 1) == When(p.age > 60, Age);
    assert ListedPrefix(p, 2) == When(p.age > 60, Age)
      + When(p.ejectionFraction < 50, EjectionFraction);
    assert ListedPrefix(p, 3) == When(p.age > 60, Age)
      + When(p.ejectionFraction < 50, EjectionFraction)
      + When(p.serumCreatinine > 1.2, SerumCreatinine);
    assert ListedPrefix(p, 4) == When(p.age > 60, Age)
      + When(p.ejectionFraction < 50, EjectionFraction)
      + When(p.serumCreatinine > 1.2, SerumCreatinine)
      + When(p.anaemia == 1, Anaemia);
    assert ListedPrefix(p, 5) == When(p.age > 60, Age)
      + When(p.ejectionFraction < 50, EjectionFraction)
      + When(p.serumCreatinine > 1.2, SerumCreatinine)
      + When(p.anaemia == 1, Anaemia)
      + When(p.diabetes == 1, Diabetes);
    assert ListedPrefix(p, 6) == When(p.age > 60, Age)
      + When(p.ejectionFraction < 50, EjectionFraction)
      + When(p.serumCreatinine > 1.2, SerumCreatinine)
      + When(p.anaemia == 1, Anaemia)
      + When(p.diabetes == 1, Diabetes)
      + When(p.highBloodPressure == 1, HighBloodPressure);
    assert ListedPrefix(p, 7) == When(p.age > 60, Age)
      + When(p.ejectionFraction < 50, EjectionFraction)
      + When(p.serumCreatinine > 1.2, SerumCreatinine)
      + When(p.anaemia == 1, Anaemia)
      + When(p.diabetes == 1, Diabetes)
      + When(p.highBloodPressure == 1, HighBloodPressure)
      + When(p.smoking == 1, Smoking);
    assert [] + ListedPrefix(p, 7) == ListedPrefix(p, 7);
  }

  /** The points list the seven blocks build, one block after another. */
  lemma ScoresChain(p: PatientRecord)
    ensures FactorScores(p) == []
      + When(p.age > 60, BreakdownPoints(p, Age))
      + When(p.ejectionFraction < 50, BreakdownPoints(p, EjectionFraction))
      + When(p.serumCreatinine > 1.2, BreakdownPoints(p, SerumCreatinine))
      + When(p.anaemia == 1, BreakdownPoints(p, Anaemia))
      + When(p.diabetes == 1, BreakdownPoints(p, Diabetes))
      + When(p.highBloodPressure == 1, BreakdownPoints(p, HighBloodPressure))
      + When(p.smoking == 1, BreakdownPoints(p, Smoking))
  {
    assert ScoresPrefix(p, 1) == When(p.age > 60, BreakdownPoints(p, Age));
    assert ScoresPrefix(p, 2) == When(p.age > 60, BreakdownPoints(p, Age))
      + When(p.ejectionFraction < 50, BreakdownPoints(p, EjectionFraction));
    assert ScoresPrefix(p, 3) == When(p.age > 60, BreakdownPoints(p, Age))
      + When(p.ejectionFraction < 50, BreakdownPoints(p, EjectionFraction))
      + When(p.serumCreatinine > 1.2, BreakdownPoints(p, SerumCreatinine));
    assert ScoresPrefix(p, 4) == When(p.age > 60, BreakdownPoints(p, Age))
      + When(p.ejectionFraction < 50, BreakdownPoints(p, EjectionFraction))
      + When(p.serumCreatinine > 1.2, BreakdownPoints(p, SerumCreatinine))
      + When(p.anaemia == 1, BreakdownPoints(p, Anaemia));
    assert ScoresPrefix(p, 5) == When(p.age > 60, BreakdownPoints(p, Age))
      + When(p.ejectionFraction < 50, BreakdownPoints(p, EjectionFraction))
      + When(p.serumCreatinine > 1.2, BreakdownPoints(p, SerumCreatinine))
      + When(p.anaemia == 1, BreakdownPoints(p, Anaemia))
      + When(p.diabetes == 1, BreakdownPoints(p, Diabetes));
    assert ScoresPrefix(p, 6) == When(p.age > 60, BreakdownPoints(p, Age))
      + When(p.ejectionFraction < 50, BreakdownPoints(p, EjectionFraction))
      + When(p.serumCreatinine > 1.2, BreakdownPoints(p, SerumCreatinine))
      + When(p.anaemia == 1, BreakdownPoints(p, Anaemia))
      + When(p.diabetes == 1, BreakdownPoints(p, Diabetes))
      + When(p.highBloodPressure == 1, BreakdownPoints(p, HighBloodPressure));
    assert ScoresPrefix(p, 7) == When(p.age > 60, BreakdownPoints(p, Age))
      + When(p.ejectionFraction < 50, BreakdownPoints(p, EjectionFraction))
      + When(p.serumCreatinine > 1.2, BreakdownPoints(p, SerumCreatinine))
      + When(p.anaemia == 1, BreakdownPoints(p, Anaemia))
      + When(p.diabetes == 1, BreakdownPoints(p, Diabetes))
      + When(p.highBloodPressure == 1, BreakdownPoints(p, HighBloodPressure))
      + When(p.smoking == 1, BreakdownPoints(p, Smoking));
    assert [] + ScoresPrefix(p, 7) == ScoresPrefix(p, 7);
    ScoresPrefixMapped(p, |FactorOrder|);
  }

  /** A listed factor's breakdown points are the points it added to the score. */
  lemma BreakdownPointsAgree(p: PatientRecord, k: FactorKind)
    requires Listed(p, k)
    ensures BreakdownPoints(p, k) == Points(p, k)
  {
  }

  /** The points the breakdown appends are those of the listed factors. */
  lemma {:induction false} ScoresPrefixMapped(p: PatientRecord, n: nat)
    requires n <= |FactorOrder|
    ensures ScoresPrefix(p, n) == Map(ListedPrefix(p, n), PointsFor(p))
  {
    if n > 0 {
      ScoresPrefixMapped(p, n - 1);
      var k := FactorOrder[n - 1];
      MapConcat(ListedPrefix(p, n - 1), When(Listed(p, k), k), PointsFor(p));
      MapWhen(Listed(p, k), k, PointsFor(p));
      if Listed(p, k) {
        BreakdownPointsAgree(p, k);
      }
    }
  }

  /** The listed factors among the first `n` are in FactorOrder, and each has
      rank below `n`. */
  lemma {:induction false} ListedPrefixRanked(p: PatientRecord, n: nat)
    requires n <= |FactorOrder|
    ensures StrictlyRanked(ListedPrefix(p, n), FactorRank)
    ensures forall i :: 0 <= i < |ListedPrefix(p, n)| ==> 0 <= FactorRank(ListedPrefix(p, n)[i]) < n
  {
    if n > 0 {
      ListedPrefixRanked(p, n - 1);
      var k := FactorOrder[n - 1];
      assert FactorRank(k) == n - 1;
      if Listed(p, k) {
        assert ListedPrefix(p, n) == ListedPrefix(p, n - 1) + [k];
        RankedAppend(ListedPrefix(p, n - 1), k, FactorRank);
      } else {
        assert ListedPrefix(p, n) == ListedPrefix(p, n - 1);
      }
    }
  }

  /** A factor is among the listed factors of the first `n` exactly when its
      test holds and its rank is below `n`. */
  lemma {:induction false} ListedPrefixMembers(p: PatientRecord, n: nat, k: FactorKind)
    requires n <= |FactorOrder|
    ensures k in ListedPrefix(p, n) <==> Listed(p, k) && FactorRank(k) < n
  {
    if n > 0 {
      ListedPrefixMembers(p, n - 1, k);
      var last := FactorOrder[n - 1];
      assert FactorRank(last) == n - 1;
      assert ListedPrefix(p, n) == ListedPrefix(p, n - 1) + When(Listed(p, last), last);
      assert FactorRank(k) == n - 1 ==> k == last;
    }
  }

  /** The points of the listed factors among the first `n` of FactorOrder. */
  function ListedPointsUpTo(p: PatientRecord, n: nat): int
    requires n <= |FactorOrder|
  {
    if n == 0 then 0
    else
      var k := FactorOrder[n - 1];
      ListedPointsUpTo(p, n - 1) + (if Listed(p, k) then Points(p, k) else 0)
  }

  /** Summing the points of the listed factors among the first `n`: a factor's
      points count exactly when it is listed. */
  lemma {:induction false} ListedPrefixSum(p: PatientRecord, n: nat)
    requires n <= |FactorOrder|
    ensures Sum(Map(ListedPrefix(p, n), PointsFor(p))) == ListedPointsUpTo(p, n)
  {
    var f := PointsFor(p);
    if n > 0 {
      ListedPrefixSum(p, n - 1);
      var last := FactorOrder[n - 1];
      MapConcat(ListedPrefix(p, n - 1), When(Listed(p, last), last), f);
      SumConcat(Map(ListedPrefix(p, n - 1), f), Map(When(Listed(p, last), last), f));
      SumMapWhen(Listed(p, last), last, f);
    }
  }

  /** Exactly the factors whose test holds are listed. */
  lemma ListedFactorsExactly(p: PatientRecord, k: FactorKind)
    ensures k in ListedFactors(p) <==> Listed(p, k)
  {
    ListedPrefixMembers(p, |FactorOrder|, k);
  }

  /** The listed factors follow FactorOrder, so none appears twice. */
  lemma ListedFactorsInOrder(p: PatientRecord)
    ensures StrictlyRanked(ListedFactors(p), FactorRank)
    ensures forall i, j :: 0 <= i < j < |ListedFactors(p)| ==> ListedFactors(p)[i] != ListedFactors(p)[j]
  {
    ListedPrefixRanked(p, |FactorOrder|);
    StrictlyRankedDistinct(ListedFactors(p), FactorRank);
  }

  /** Distinct factors have distinct names. */
  lemma NameInjective(a: FactorKind, b: FactorKind)
    requires a != b
    ensures Name(a) != Name(b)
  {
  }

  /** The names of the listed factors are distinct, and a factor's name is
      among them exactly when its test holds. */
  lemma NamesOfListed(p: PatientRecord)
    ensures forall i, j :: 0 <= i < j < |Map(ListedFactors(p), Name)| ==>
      Map(ListedFactors(p), Name)[i] != Map(ListedFactors(p), Name)[j]
    ensures forall k :: Name(k) in Map(ListedFactors(p), Name) <==> Listed(p, k)
  {
    var listed := ListedFactors(p);
    var names := Map(listed, Name);
    ListedFactorsInOrder(p);
    forall i, j | 0 <= i < j < |names| ensures names[i] != names[j] {
      NameInjective(listed[i], listed[j]);
    }
    forall y, z | Name(y) == Name(z) ensures y == z {
      if y != z {
        NameInjective(y, z);
      }
    }
    forall k ensures Name(k) in names <==> Listed(p, k) {
      ListedFactorsExactly(p, k);
      MapMemberInjective(listed, Name, k);
    }
  }

  /** Every listed factor adds at least 10 points. */
  lemma ListedPointsPositive(p: PatientRecord)
    ensures forall i :: 0 <= i < |ListedFactors(p)| ==> Points(p, ListedFactors(p)[i]) >= 10
  {
    var listed := ListedFactors(p);
    forall i | 0 <= i < |listed| ensures Points(p, listed[i]) >= 10 {
      ListedFactorsExactly(p, listed[i]);
    }
  }

  /** A factor other than age is listed exactly when it adds points; age is
      listed only when it adds 15 or 25, and an age in (50, 60] adds 10 points
      without being listed. */
  lemma ListedVersusPoints(p: PatientRecord, k: FactorKind)
    ensures k != Age ==> (Listed(p, k) <==> Points(p, k) > 0)
    ensures k == Age ==> (Listed(p, k) <==> Points(p, k) in {15, 25})
    ensures k == Age && 50 < p.age <= 60 ==> !Listed(p, k) && Points(p, k) == 10
  {
  }

  /** A factor's points counted only when listed: all of them, except the 10
      points of an age in (50, 60]. */
  lemma ListedPointsOf(p: PatientRecord, k: FactorKind)
    ensures (if Listed(p, k) then Points(p, k) else 0)
      == Points(p, k) - (if k == Age && 50 < p.age <= 60 then 10 else 0)
  {
  }

  /** ListedPointsUpTo over the whole of FactorOrder, factor by factor. */
  lemma ListedPointsAll(p: PatientRecord)
    ensures ListedPointsUpTo(p, |FactorOrder|)
      == Points(p, Age) + Points(p, EjectionFraction) + Points(p, SerumCreatinine)
      + Points(p, Anaemia) + Points(p, Diabetes) + Points(p, HighBloodPressure) + Points(p, Smoking)
      - (if 50 < p.age <= 60 then 10 else 0)
  {
    ListedPointsOf(p, Age);
    ListedPointsOf(p, EjectionFraction);
    ListedPointsOf(p, SerumCreatinine);
    ListedPointsOf(p, Anaemia);
    ListedPointsOf(p, Diabetes);
    ListedPointsOf(p, HighBloodPressure);
    ListedPointsOf(p, Smoking);
    assert ListedPointsUpTo(p, 1) == Points(p, Age) - (if 50 < p.age <= 60 then 10 else 0);
    assert ListedPointsUpTo(p, 2) == ListedPointsUpTo(p, 1) + Points(p, EjectionFraction);
    assert ListedPointsUpTo(p, 3) == ListedPointsUpTo(p, 2) + Points(p, SerumCreatinine);
    assert ListedPointsUpTo(p, 4) == ListedPointsUpTo(p, 3) + Points(p, Anaemia);
    assert ListedPointsUpTo(p, 5) == ListedPointsUpTo(p, 4) + Points(p, Diabetes);
    assert ListedPointsUpTo(p, 6) == ListedPointsUpTo(p, 5) + Points(p, HighBloodPressure);
    assert ListedPointsUpTo(p, 7) == ListedPointsUpTo(p, 6) + Points(p, Smoking);
  }

  /** Patients that agree on the fields the rule reads have the same listed factors. */
  lemma {:induction false} ListedPrefixSame(p: PatientRecord, q: PatientRecord, n: nat)
    requires SameRuleInputs(p, q) && n <= |FactorOrder|
    ensures ListedPrefix(p, n) == ListedPrefix(q, n)
  {
    if n > 0 {
      ListedPrefixSame(p, q, n - 1);
    }
  }

  /** The breakdown reads only the fields the score reads. */
  lemma FactorsIgnoreOtherInputs(p: PatientRecord, q: PatientRecord)
    requires SameRuleInputs(p, q)
    ensures FactorNames(p) == FactorNames(q)
    ensures FactorScores(p) == FactorScores(q)
  {
    var listed := ListedFactors(p);
    ListedPrefixSame(p, q, |FactorOrder|);
    forall i | 0 <= i < |listed| ensures FactorScores(p)[i] == FactorScores(q)[i] {
      assert Points(p, listed[i]) == Points(q, listed[i]);
    }
  }
}
