/** The recommendations list: advisories in a fixed order, each behind its own
    test, with a single reassuring entry when none applies. */
module Recommendations {
  import opened Seqs
  import opened Patient
  import opened Scoring

  datatype Advice =
    | CriticalEjectionFraction
    | ElevatedCreatinine
    | AgeMonitoring
    | SmokingCessation
    | DiabetesControl
    | BloodPressureControl
    | GoodNews

  /** The six advisories that have a test of their own, in the order they are considered. */
  const WarningOrder: seq<Advice> :=
    [CriticalEjectionFraction, ElevatedCreatinine, AgeMonitoring, SmokingCessation, DiabetesControl, BloodPressureControl]

  /** Position in WarningOrder; the fallback entry comes after all of them. */
  function AdviceRank(a: Advice): int
  {
    match a
    case CriticalEjectionFraction => 0
    case ElevatedCreatinine => 1
    case AgeMonitoring => 2
    case SmokingCessation => 3
    case DiabetesControl => 4
    case BloodPressureControl => 5
    case GoodNews => 6
  }

  /** The test behind each advisory; these thresholds are separate from the
      scoring bands, but each is stricter than its factor's lowest band, so an
      advisory only fires for a factor that was scored. The fallback entry has
      no test of its own. */
  function Fires(p: PatientRecord, a: Advice): (fires: bool)
    ensures fires ==> a != GoodNews
    ensures fires && a == CriticalEjectionFraction ==> EjectionFractionPoints(p.ejectionFraction) >= 20
    ensures fires && a == ElevatedCreatinine ==> CreatininePoints(p.serumCreatinine) >= 15
    ensures fires && a == AgeMonitoring ==> AgePoints(p.age) == 25
    ensures fires && a == SmokingCessation ==> FlagPoints(p.smoking) == 10
    ensures fires && a == DiabetesControl ==> FlagPoints(p.diabetes) == 10
    ensures fires && a == BloodPressureControl ==> FlagPoints(p.highBloodPressure) == 10
  {
    match a
    case CriticalEjectionFraction => p.ejectionFraction < 40
    case ElevatedCreatinine => p.serumCreatinine > 1.5
    case AgeMonitoring => p.age > 70
    case SmokingCessation => p.smoking == 1
    case DiabetesControl => p.diabetes == 1
    case BloodPressureControl => p.highBloodPressure == 1
    case GoodNews => false
  }

  /** The leading emoji of each advisory's text; no two are the same. */
  function Emoji(a: Advice): char
  {
    match a
    case CriticalEjectionFraction => '\U{1F534}'
    case ElevatedCreatinine => '\U{1F7E0}'
    case AgeMonitoring => '\U{1F7E1}'
    case SmokingCessation => '\U{1F6AD}'
    case DiabetesControl => '\U{1F48A}'
    case BloodPressureControl => '\U{1FA7A}'
    case GoodNews => '\U{2705}'
  }

  /** The text of each advisory as displayed: its emoji, then its Markdown wording. */
  function Text(a: Advice): (text: string)
    ensures |text| > 0 && text[0] == Emoji(a)
  {
    [Emoji(a)] + Wording(a)
  }

  /** The Markdown wording that follows each advisory's emoji. */
  function Wording(a: Advice): string
  {
    match a
    case CriticalEjectionFraction =>
      " **Critical:** Ejection fraction is below normal. Immediate cardiac evaluation needed."
    case ElevatedCreatinine =>
      " **Important:** Elevated serum creatinine suggests kidney issues. Consult nephrologist."
    case AgeMonitoring =>
      " **Monitor:** Age is a risk factor. Regular cardiac check-ups recommended."
    case SmokingCessation =>
      " **Lifestyle:** Smoking cessation programs strongly recommended."
    case DiabetesControl =>
      " **Management:** Ensure diabetes is well-controlled with proper medication."
    case BloodPressureControl =>
      " **Control:** Blood pressure management is crucial. Follow prescribed treatment."
    case GoodNews =>
      " **Good News:** No critical findings. Continue healthy lifestyle and regular check-ups."
  }

  /** The advisories among the first `n` of WarningOrder whose test holds, in order. */
  function WarningsUpTo(p: PatientRecord, n: nat): seq<Advice>
    requires n <= |WarningOrder|
  {
    if n == 0 then []
    else
      var a := WarningOrder[n - 1];
      WarningsUpTo(p, n - 1) + When(Fires(p, a), a)
  }

  /** Every advisory whose test holds, in WarningOrder. */
  function Warnings(p: PatientRecord): seq<Advice>
  {
    WarningsUpTo(p, |WarningOrder|)
  }

  /** The advisories shown: the warnings, or the fallback entry alone when there are none. */
  function AdviceFor(p: PatientRecord): (advice: seq<Advice>)
    ensures |advice| >= 1
  {
    var warnings := Warnings(p);
    if warnings == [] then [GoodNews] else warnings
  }

  /** The texts shown, one per advisory: never none, none repeated, and an
      advisory's text is shown exactly when the advisory is. */
  function RecommendationTexts(p: PatientRecord): (texts: seq<string>)
    ensures |texts| >= 1
    ensures forall i, j :: 0 <= i < j < |texts| ==> texts[i] != texts[j]
    ensures forall a :: Text(a) in texts <==> a in AdviceFor(p)
  {
    TextsOfAdvice(p);
    Map(AdviceFor(p), Text)
  }

  /** The recommendations as the form builds them: each test in turn appends its
      advisory, and a list still empty at the end receives the fallback entry. */
  method BuildRecommendations(p: PatientRecord) returns (recommendations: seq<Advice>)
    ensures recommendations == AdviceFor(p)
  {
    recommendations := [];

    if p.ejectionFraction < 40 {
      recommendations := recommendations + [CriticalEjectionFraction];
    }
    assert recommendations == WarningsUpTo(p, 1);

    if p.serumCreatinine > 1.5 {
      recommendations := recommendations + [ElevatedCreatinine];
    }
    assert recommendations == WarningsUpTo(p, 2);

    if p.age > 70 {
      recommendations := recommendations + [AgeMonitoring];
    }
    assert recommendations == WarningsUpTo(p, 3);

    if p.smoking == 1 {
      recommendations := recommendations + [SmokingCessation];
    }
    assert recommendations == WarningsUpTo(p, 4);

    if p.diabetes == 1 {
      recommendations := recommendations + [DiabetesControl];
    }
    assert recommendations == WarningsUpTo(p, 5);

    if p.highBloodPressure == 1 {
      recommendations := recommendations + [BloodPressureControl];
    }
    assert recommendations == WarningsUpTo(p, 6);

    if recommendations == [] {
      recommendations := recommendations + [GoodNews];
    }
  }

  /** The warnings among the first `n` are in WarningOrder, each with rank below `n`. */
  lemma {:induction false} WarningsUpToRanked(p: PatientRecord, n: nat)
    requires n <= |WarningOrder|
    ensures StrictlyRanked(WarningsUpTo(p, n), AdviceRank)
    ensures forall i :: 0 <= i < |WarningsUpTo(p, n)| ==> 0 <= AdviceRank(WarningsUpTo(p, n)[i]) < n
  {
    if n > 0 {
      WarningsUpToRanked(p, n - 1);
      var a := WarningOrder[n - 1];
      assert AdviceRank(a) == n - 1;
      if Fires(p, a) {
        assert WarningsUpTo(p, n) == WarningsUpTo(p, n - 1) + [a];
        RankedAppend(WarningsUpTo(p, n - 1), a, AdviceRank);
      } else {
        assert WarningsUpTo(p, n) == WarningsUpTo(p, n - 1);
      }
    }
  }

  /** An advisory is among the warnings of the first `n` exactly when its test
      holds and its rank is below `n`. */
  lemma {:induction false} WarningsUpToMembers(p: PatientRecord, n: nat, a: Advice)
    requires n <= |WarningOrder|
    ensures a in WarningsUpTo(p, n) <==> Fires(p, a) && AdviceRank(a) < n
  {
    if n > 0 {
      WarningsUpToMembers(p, n - 1, a);
      var last := WarningOrder[n - 1];
      assert AdviceRank(last) == n - 1;
      assert AdviceRank(a) == n - 1 ==> a == last;
    }
  }

  /** Each of the six advisories is shown exactly when its test holds. */
  lemma WarningShownIff(p: PatientRecord, a: Advice)
    requires a != GoodNews
    ensures a in AdviceFor(p) <==> Fires(p, a)
  {
    WarningsUpToMembers(p, |WarningOrder|, a);
  }

  /** The fallback entry is shown exactly when none of the six tests holds, and
      then it is the only entry. */
  lemma GoodNewsIff(p: PatientRecord)
    ensures GoodNews in AdviceFor(p) <==> forall a :: !Fires(p, a)
    ensures GoodNews in AdviceFor(p) ==> AdviceFor(p) == [GoodNews]
  {
    WarningsUpToMembers(p, |WarningOrder|, GoodNews);
    if Warnings(p) != [] {
      var w := Warnings(p)[0];
      WarningsUpToMembers(p, |WarningOrder|, w);
    } else {
      forall a ensures !Fires(p, a) {
        WarningsUpToMembers(p, |WarningOrder|, a);
      }
    }
  }

  /** The advisories follow the fixed order, with none repeated. */
  lemma AdviceInOrder(p: PatientRecord)
    ensures StrictlyRanked(AdviceFor(p), AdviceRank)
    ensures forall i, j :: 0 <= i < j < |AdviceFor(p)| ==> AdviceFor(p)[i] != AdviceFor(p)[j]
  {
    WarningsUpToRanked(p, |WarningOrder|);
    StrictlyRankedDistinct(AdviceFor(p), AdviceRank);
  }

  /** Distinct advisories have distinct texts. */
  lemma TextInjective(a: Advice, b: Advice)
    requires a != b
    ensures Text(a) != Text(b)
  {
    EmojiInjective(a, b);
  }

  /** Distinct advisories lead with distinct emoji. */
  lemma EmojiInjective(a: Advice, b: Advice)
    requires a != b
    ensures Emoji(a) != Emoji(b)
  {
  }

  /** A displayed text names exactly one advisory. */
  lemma TextsDetermineAdvice()
    ensures forall x, y :: Text(x) == Text(y) ==> x == y
  {
    forall x, y | Text(x) == Text(y) ensures x == y {
      if x != y {
        TextInjective(x, y);
      }
    }
  }

  /** The texts of the advisories shown are distinct, and an advisory's text is
      among them exactly when the advisory is shown. */
  lemma TextsOfAdvice(p: PatientRecord)
    ensures forall i, j :: 0 <= i < j < |Map(AdviceFor(p), Text)| ==>
      Map(AdviceFor(p), Text)[i] != Map(AdviceFor(p), Text)[j]
    ensures forall a :: Text(a) in Map(AdviceFor(p), Text) <==> a in AdviceFor(p)
  {
    var advice := AdviceFor(p);
    var texts := Map(advice, Text);
    AdviceInOrder(p);
    forall i, j | 0 <= i < j < |texts| ensures texts[i] != texts[j] {
      TextInjective(advice[i], advice[j]);
    }
    TextsDetermineAdvice();
    forall a ensures Text(a) in texts <==> a in advice {
      MapMemberInjective(advice, Text, a);
    }
  }

  /** The recommendations read only age, ejection fraction, creatinine and three
      of the conditions. */
  lemma RecommendationsIgnoreOtherInputs(p: PatientRecord, q: PatientRecord)
    requires SameRuleInputs(p, q)
    ensures AdviceFor(p) == AdviceFor(q)
    ensures RecommendationTexts(p) == RecommendationTexts(q)
  {
    assert WarningsUpTo(p, 1) == WarningsUpTo(q, 1);
    assert WarningsUpTo(p, 2) == WarningsUpTo(q, 2);
    assert WarningsUpTo(p, 3) == WarningsUpTo(q, 3);
    assert WarningsUpTo(p, 4) == WarningsUpTo(q, 4);
    assert WarningsUpTo(p, 5) == WarningsUpTo(q, 5);
    assert WarningsUpTo(p, 6) == WarningsUpTo(q, 6);
  }
}
