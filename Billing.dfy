/**
 * Patients and their bills. `Patient` and `EmergencyPatient` carry the same
 * fields and differ only in the bill factor and the save tag, so one
 * datatype with a `Kind` tag stands for both.
 */
module Billing {

  datatype Kind = Regular | Emergency

  datatype Patient = Patient(
    kind: Kind,
    name: string,
    disease: string,
    assignedDoctor: string,
    severity: string,
    roomNumber: int)

  /** Base cost of each disease (13 entries). */
  const DiseaseCost: map<string, real> := map[
    "Flu" := 1000.0, "Cold" := 500.0, "Fever" := 800.0, "Diabetes" := 4000.0,
    "Hypertension" := 3000.0, "Asthma" := 2500.0, "Allergy" := 1200.0,
    "Migraine" := 1500.0, "Obesity" := 3500.0, "Heart Disease" := 5000.0,
    "Skin Infection" := 1000.0, "Pneumonia" := 4500.0, "Infection" := 2000.0]

  /** Factor of each severity. */
  const SeverityMultiplier: map<string, real> := map["Mild" := 1.0, "Moderate" := 1.5, "Severe" := 2.0]

  /** What a bill costs when the disease or the severity is not in the tables. */
  const DefaultCost: real := 500.0

  /** Factor the emergency bill applies to the whole regular bill. */
  const EmergencyFactor: real := 1.5

  predicate IsSeverity(s: string) { s == "Mild" || s == "Moderate" || s == "Severe" }

  predicate Priced(disease: string, severity: string)
  {
    disease in DiseaseCost && severity in SeverityMultiplier
  }

  /** `Patient::calculateBill`: table formula, or the flat default on a missing key. */
  function RegularBill(disease: string, severity: string, surcharge: real): real
  {
    if Priced(disease, severity) then DiseaseCost[disease] * SeverityMultiplier[severity] + surcharge
    else DefaultCost
  }

  /** The bill of `p` whose doctor charges `surcharge`; `EmergencyPatient::calculateBill` scales it. */
  function Bill(p: Patient, surcharge: real): real
  {
    var base := RegularBill(p.disease, p.severity, surcharge);
    if p.kind == Emergency then base * EmergencyFactor else base
  }

  /**
   * The bill for every input: the formula when both tables know the keys,
   * otherwise 500 for a regular patient and 750 for an emergency patient,
   * since the emergency factor also scales the default.
   */
  lemma BillCases(p: Patient, surcharge: real)
    ensures Priced(p.disease, p.severity) && p.kind == Regular ==>
      Bill(p, surcharge) == DiseaseCost[p.disease] * SeverityMultiplier[p.severity] + surcharge
    ensures Priced(p.disease, p.severity) && p.kind == Emergency ==>
      Bill(p, surcharge) == (DiseaseCost[p.disease] * SeverityMultiplier[p.severity] + surcharge) * 1.5
    ensures !Priced(p.disease, p.severity) && p.kind == Regular ==> Bill(p, surcharge) == 500.0
    ensures !Priced(p.disease, p.severity) && p.kind == Emergency ==> Bill(p, surcharge) == 750.0
  {
  }

  /** The emergency bill is 1.5 times the bill of the same record as a regular patient. */
  lemma EmergencyIsOneAndAHalfRegular(p: Patient, surcharge: real)
    requires p.kind == Emergency
    ensures Bill(p, surcharge) == Bill(p.(kind := Regular), surcharge) * 1.5
  {
  }

  /** Heart Disease, Severe, surcharge 2500 (Dr. Clark) as an emergency: (5000 * 2 + 2500) * 1.5. */
  lemma HeartDiseaseEmergencyBill(p: Patient)
    requires p.kind == Emergency && p.disease == "Heart Disease" && p.severity == "Severe"
    ensures Bill(p, 2500.0) == 18750.0
  {
  }

  /** Flu, Mild, surcharge 800 (Dr. Smith) as a regular patient: 1000 * 1 + 800. */
  lemma FluMildRegularBill(p: Patient)
    requires p.kind == Regular && p.disease == "Flu" && p.severity == "Mild"
    ensures Bill(p, 800.0) == 1800.0
  {
  }

  /** A priced bill grows with the surcharge and is never below it for non-negative surcharges. */
  lemma BillMonotoneInSurcharge(p: Patient, s1: real, s2: real)
    requires Priced(p.disease, p.severity) && 0.0 <= s1 <= s2
    ensures s1 <= Bill(p, s1) <= Bill(p, s2)
  {
  }
}
