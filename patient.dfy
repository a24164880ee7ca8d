/** The inputs of the single-patient prediction form. */
module Patient {

  /** One patient as entered on the form. The yes/no fields (anaemia, diabetes,
      high blood pressure, sex, smoking) hold the 0/1 the form's select boxes give;
      the rule treats a field as present exactly when it equals 1. Serum creatinine
      is an exact real number of mg/dL. */
  datatype PatientRecord = PatientRecord(
    age: int,
    anaemia: int,
    creatininePhosphokinase: int,
    diabetes: int,
    ejectionFraction: int,
    highBloodPressure: int,
    platelets: int,
    serumCreatinine: real,
    serumSodium: int,
    sex: int,
    smoking: int,
    time: int)

  /** `p` and `q` agree on the seven fields the risk rule reads; creatinine
      phosphokinase, platelets, serum sodium, sex and follow-up time may differ. */
  predicate SameRuleInputs(p: PatientRecord, q: PatientRecord)
  {
    p.age == q.age && p.anaemia == q.anaemia && p.diabetes == q.diabetes
    && p.ejectionFraction == q.ejectionFraction && p.highBloodPressure == q.highBloodPressure
    && p.serumCreatinine == q.serumCreatinine && p.smoking == q.smoking
  }
}
