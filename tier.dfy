/** The risk level derived from the score, with its fixed advisory message. */
module Tier {

  datatype RiskLevel = Low | Moderate | High

  /** Scores below 30 are low, below 60 moderate, the rest high. */
  function LevelOf(score: int): (level: RiskLevel)
    ensures level == Low <==> score < 30
    ensures level == Moderate <==> 30 <= score < 60
    ensures level == High <==> score >= 60
  {
    if score < 30 then Low else if score < 60 then Moderate else High
  }

  /** The label shown beside the score; each label names exactly one level. */
  function Label(level: RiskLevel): (text: string)
    ensures text == "LOW" <==> level == Low
    ensures text == "MODERATE" <==> level == Moderate
    ensures text == "HIGH" <==> level == High
  {
    match level
    case Low => "LOW"
    case Moderate => "MODERATE"
    case High => "HIGH"
  }

  /** The advisory message that belongs to each level. */
  function Message(level: RiskLevel): string
  {
    match level
    case Low => "Low risk of cardiovascular death event. Continue regular check-ups."
    case Moderate => "Moderate risk detected. Consult with a cardiologist for assessment."
    case High => "High risk of cardiovascular death event. Immediate medical attention recommended."
  }

  /** The level selection as the form runs it: one if/elif/else chain that assigns
      the label and the message together. */
  method DetermineRiskLevel(riskScore: int) returns (riskLevel: string, riskMessage: string)
    ensures riskLevel == Label(LevelOf(riskScore))
    ensures riskMessage == Message(LevelOf(riskScore))
  {
    if riskScore < 30 {
      riskLevel := "LOW";
      riskMessage := "Low risk of cardiovascular death event. Continue regular check-ups.";
    } else if riskScore < 60 {
      riskLevel := "MODERATE";
      riskMessage := "Moderate risk detected. Consult with a cardiologist for assessment.";
    } else {
      riskLevel := "HIGH";
      riskMessage := "High risk of cardiovascular death event. Immediate medical attention recommended.";
    }
  }

  /** Distinct levels carry distinct labels and distinct messages, so the text
      shown determines the level. */
  lemma LabelsAndMessagesDistinct(a: RiskLevel, b: RiskLevel)
    requires a != b
    ensures Label(a) != Label(b) && Message(a) != Message(b)
  {
  }

  /** The level never goes down as the score goes up. */
  lemma LevelMonotone(s: int, t: int)
    requires s <= t
    ensures LevelOf(s) == High ==> LevelOf(t) == High
    ensures LevelOf(t) == Low ==> LevelOf(s) == Low
  {
  }

  /** The boundary scores either side of each threshold. */
  lemma LevelBoundaries()
    ensures LevelOf(29) == Low && LevelOf(30) == Moderate
    ensures LevelOf(59) == Moderate && LevelOf(60) == High
    ensures LevelOf(0) == Low && LevelOf(100) == High
  {
  }
}
