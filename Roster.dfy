/**
 * The doctor roster: the ten fixed doctors, lookup by name, the list of
 * treatable diseases and the least-cost recommendation.
 */
module Roster {
  import opened Billing

  datatype Doctor = Doctor(name: string, specialties: seq<string>, patientCount: int, surcharge: real)

  /** `recommendLeastCostDoctor` starts its running minimum here. */
  const Sentinel: real := 1000000000.0

  /** `initializeDoctors`: the roster every start rebuilds, all counts zero. */
  function InitialRoster(): seq<Doctor>
  {
    [ Doctor("Dr. Smith", ["Flu", "Cold"], 0, 800.0),
      Doctor("Dr. Jones", ["Diabetes", "Hypertension"], 0, 1500.0),
      Doctor("Dr. Brown", ["Asthma", "Allergy"], 0, 1200.0),
      Doctor("Dr. Taylor", ["Fever", "Flu"], 0, 900.0),
      Doctor("Dr. Wilson", ["Cold", "Migraine"], 0, 700.0),
      Doctor("Dr. Moore", ["Diabetes", "Obesity"], 0, 2000.0),
      Doctor("Dr. Clark", ["Hypertension", "Heart Disease"], 0, 2500.0),
      Doctor("Dr. Lewis", ["Allergy", "Skin Infection"], 0, 800.0),
      Doctor("Dr. Hall", ["Asthma", "Pneumonia"], 0, 1800.0),
      Doctor("Dr. Allen", ["Fever", "Infection"], 0, 1000.0) ]
  }

  predicate DistinctNames(ds: seq<Doctor>)
  {
    forall i, j :: 0 <= i < j < |ds| ==> ds[i].name != ds[j].name
  }

  /** The names on a roster. */
  function NameSet(ds: seq<Doctor>): set<string>
  {
    if ds == [] then {} else NameSet(ds[..|ds| - 1]) + {ds[|ds| - 1].name}
  }

  lemma {:induction false} NameSetMembers(ds: seq<Doctor>)
    ensures forall n :: n in NameSet(ds) <==> exists i :: 0 <= i < |ds| && ds[i].name == n
  {
    if ds != [] {
      NameSetMembers(ds[..|ds| - 1]);
      forall n | n in NameSet(ds) ensures exists i :: 0 <= i < |ds| && ds[i].name == n {
        if n != ds[|ds| - 1].name {
          var front := ds[..|ds| - 1];
          assert n in NameSet(front);
          var i :| 0 <= i < |front| && front[i].name == n;
          assert ds[i].name == n;
        }
      }
      forall n | exists i :: 0 <= i < |ds| && ds[i].name == n ensures n in NameSet(ds) {
        var i :| 0 <= i < |ds| && ds[i].name == n;
        if i < |ds| - 1 {
          assert ds[..|ds| - 1][i].name == n;
        }
      }
    }
  }

  /** `ds` is the fixed roster up to the patient counts. */
  predicate IsRoster(ds: seq<Doctor>)
  {
    |ds| == |InitialRoster()| &&
    forall i :: 0 <= i < |ds| ==> ds[i].(patientCount := 0) == InitialRoster()[i]
  }

  /**
   * The roster has ten doctors with distinct, non-empty names, zero counts,
   * positive surcharges, and every specialty has an entry in the cost table.
   */
  lemma InitialRosterFacts()
    ensures IsRoster(InitialRoster())
    ensures |InitialRoster()| == 10 && DistinctNames(InitialRoster())
    ensures forall i :: 0 <= i < 10 ==>
      InitialRoster()[i].name != "" && InitialRoster()[i].patientCount == 0 && InitialRoster()[i].surcharge > 0.0
    ensures forall i, d :: 0 <= i < 10 && d in InitialRoster()[i].specialties ==> d in DiseaseCost
  {
    InitialNamesDistinct();
  }

  /** No two doctors of the initial roster share a name: the fifth or sixth letters differ. */
  lemma InitialNamesDistinct()
    ensures DistinctNames(InitialRoster())
  {
    var r := InitialRoster();
    forall i, j | 0 <= i < j < |r| ensures r[i].name != r[j].name {
      assert r[i].name[4] != r[j].name[4] || r[i].name[5] != r[j].name[5];
    }
  }

  /** Changing counts keeps a roster a roster with the same names. */
  lemma RosterSize(ds: seq<Doctor>)
    requires IsRoster(ds)
    ensures |ds| == 10
  {
    InitialRosterFacts();
  }

  lemma RosterNames(ds: seq<Doctor>)
    requires IsRoster(ds)
    ensures DistinctNames(ds)
    ensures forall i :: 0 <= i < |ds| ==> ds[i].name == InitialRoster()[i].name && ds[i].name != ""
    ensures forall i :: 0 <= i < |ds| ==> ds[i].surcharge == InitialRoster()[i].surcharge
    ensures forall i :: 0 <= i < |ds| ==> ds[i].specialties == InitialRoster()[i].specialties
  {
    InitialRosterFacts();
    forall i | 0 <= i < |ds|
      ensures ds[i].name == InitialRoster()[i].name
      ensures ds[i].surcharge == InitialRoster()[i].surcharge
      ensures ds[i].specialties == InitialRoster()[i].specialties
    {
      assert ds[i].(patientCount := 0) == InitialRoster()[i];
    }
  }

  // ---------------------------------------------------------------------------
  // Lookup by name

  /** Position of the first doctor called `name`, or -1 when there is none. */
  function FindDoctor(ds: seq<Doctor>, name: string): (k: int)
    ensures -1 <= k < |ds|
  {
    if ds == [] then -1
    else if ds[0].name == name then 0
    else
      var k := FindDoctor(ds[1..], name);
      if k == -1 then -1 else k + 1
  }

  /** `FindDoctor` gives the first index holding `name`, and -1 exactly when there is none. */
  lemma {:induction false} FindDoctorFacts(ds: seq<Doctor>, name: string)
    ensures var k := FindDoctor(ds, name);
      (k == -1 <==> forall i :: 0 <= i < |ds| ==> ds[i].name != name) &&
      (k >= 0 ==> ds[k].name == name && forall i :: 0 <= i < k ==> ds[i].name != name)
  {
    if ds != [] && ds[0].name != name {
      FindDoctorFacts(ds[1..], name);
      assert forall i :: 1 <= i < |ds| ==> ds[i] == ds[1..][i - 1];
    }
  }

  /** The scan with `break` that admission, discharge and load run over the roster. */
  method FindDoctorIndex(ds: seq<Doctor>, name: string) returns (k: int)
    ensures k == FindDoctor(ds, name)
  {
    FindDoctorFacts(ds, name);
    k := -1;
    var i := 0;
    while i < |ds|
      invariant 0 <= i <= |ds|
      invariant forall j :: 0 <= j < i ==> ds[j].name != name
    {
      if ds[i].name == name {
        k := i;
        return;
      }
      i := i + 1;
    }
  }

  /** `getDoctorSurcharge`: the first named doctor's surcharge, 0 when nobody has the name. */
  function Surcharge(ds: seq<Doctor>, name: string): (r: real)
    ensures (forall i :: 0 <= i < |ds| ==> ds[i].name != name) ==> r == 0.0
    ensures forall i :: 0 <= i < |ds| && ds[i].name == name && (forall j :: 0 <= j < i ==> ds[j].name != name) ==>
      r == ds[i].surcharge
  {
    FindDoctorFacts(ds, name);
    var k := FindDoctor(ds, name);
    if k < 0 then 0.0 else ds[k].surcharge
  }

  /** `getDoctorSurcharge`'s loop: return the surcharge of the first doctor called `name`, 0 after the loop. */
  method DoctorSurcharge(ds: seq<Doctor>, name: string) returns (r: real)
    ensures r == Surcharge(ds, name)
  {
    FindDoctorFacts(ds, name);
    var i := 0;
    while i < |ds|
      invariant 0 <= i <= |ds|
      invariant forall j :: 0 <= j < i ==> ds[j].name != name
    {
      if ds[i].name == name {
        return ds[i].surcharge;
      }
      i := i + 1;
    }
    return 0.0;
  }

  /** The name lookup sees only names: two rosters with the same names find the same index. */
  lemma SameNamesFindAlike(a: seq<Doctor>, b: seq<Doctor>, name: string)
    requires |a| == |b| && forall i :: 0 <= i < |a| ==> a[i].name == b[i].name
    ensures FindDoctor(a, name) == FindDoctor(b, name)
  {
    FindDoctorFacts(a, name);
    FindDoctorFacts(b, name);
  }

  /** The roster after `setPatientCount(getPatientCount() + delta)` on the first doctor called `name`. */
  function WithCountDelta(ds: seq<Doctor>, name: string, delta: int): seq<Doctor>
  {
    var k := FindDoctor(ds, name);
    if k < 0 then ds else ds[k := ds[k].(patientCount := ds[k].patientCount + delta)]
  }

  /**
   * With distinct names, a count update moves exactly the count of the doctor
   * called `name` by `delta` (nothing if there is none) and changes nothing else.
   */
  lemma WithCountDeltaEffect(ds: seq<Doctor>, name: string, delta: int)
    requires DistinctNames(ds)
    ensures |WithCountDelta(ds, name, delta)| == |ds|
    ensures forall i :: 0 <= i < |ds| ==>
      WithCountDelta(ds, name, delta)[i] ==
        if ds[i].name == name then ds[i].(patientCount := ds[i].patientCount + delta) else ds[i]
  {
    FindDoctorFacts(ds, name);
  }

  /** A count update changes no doctor's surcharge as `getDoctorSurcharge` finds it. */
  lemma SurchargeIgnoresCounts(ds: seq<Doctor>, name: string, delta: int, n: string)
    ensures Surcharge(WithCountDelta(ds, name, delta), n) == Surcharge(ds, n)
  {
    var ds' := WithCountDelta(ds, name, delta);
    FindDoctorFacts(ds, name);
    assert |ds'| == |ds|;
    assert forall i :: 0 <= i < |ds| ==> ds'[i].name == ds[i].name && ds'[i].surcharge == ds[i].surcharge;
    SameNamesFindAlike(ds', ds, n);
  }

  lemma WithCountDeltaKeepsRoster(ds: seq<Doctor>, name: string, delta: int)
    requires IsRoster(ds)
    ensures IsRoster(WithCountDelta(ds, name, delta))
  {
  }

  // ---------------------------------------------------------------------------
  // Disease list

  /** Every doctor's specialties, in roster order. */
  function AllSpecialties(ds: seq<Doctor>): seq<string>
  {
    if ds == [] then [] else AllSpecialties(ds[..|ds| - 1]) + ds[|ds| - 1].specialties
  }

  /** Keeps the first occurrence of each element: the `find`-then-`push_back` loop. */
  function Dedup(s: seq<string>): seq<string>
  {
    if s == [] then []
    else
      var d := Dedup(s[..|s| - 1]);
      if s[|s| - 1] in d then d else d + [s[|s| - 1]]
  }

  /** The numbered disease menu admission offers. */
  function DiseaseList(ds: seq<Doctor>): seq<string>
  {
    Dedup(AllSpecialties(ds))
  }

  /** The deduplicated list holds every element of its input and nothing else, each once. */
  lemma {:induction false} DedupFacts(s: seq<string>)
    ensures forall x :: x in Dedup(s) <==> x in s
    ensures forall i, j :: 0 <= i < j < |Dedup(s)| ==> Dedup(s)[i] != Dedup(s)[j]
  {
    if s != [] {
      DedupFacts(s[..|s| - 1]);
      assert s == s[..|s| - 1] + [s[|s| - 1]];
    }
  }

  /**
   * `d` lists elements of `s` in first-appearance order: wherever the later
   * of two listed elements occurs in `s`, the earlier one occurs before it.
   */
  ghost predicate FirstAppearanceOrder(s: seq<string>, d: seq<string>)
  {
    forall i, j, q :: 0 <= i < j < |d| && 0 <= q < |s| && s[q] == d[j] ==>
      exists p :: 0 <= p < q && s[p] == d[i]
  }

  /** Deduplication keeps first-appearance order. */
  lemma {:induction false} DedupOrder(s: seq<string>)
    ensures FirstAppearanceOrder(s, Dedup(s))
  {
    if s != [] {
      var t, x := s[..|s| - 1], s[|s| - 1];
      var d, r := Dedup(t), Dedup(s);
      DedupOrder(t);
      DedupFacts(t);
      forall i, j, q | 0 <= i < j < |r| && 0 <= q < |s| && s[q] == r[j]
        ensures exists p :: 0 <= p < q && s[p] == r[i]
      {
        assert r[i] == d[i];
        if q < |t| {
          assert s[q] == t[q];
          if j < |d| {
            var p :| 0 <= p < q && t[p] == d[i];
            assert s[p] == t[p];
          }
        } else {
          assert d[i] in t;
          var p :| 0 <= p < |t| && t[p] == d[i];
          assert s[p] == t[p];
        }
      }
    }
  }

  /** Menu numbers follow the roster: an earlier disease on the list first appears earlier among the specialties. */
  lemma DiseaseListOrder(ds: seq<Doctor>)
    ensures FirstAppearanceOrder(AllSpecialties(ds), DiseaseList(ds))
  {
    DedupOrder(AllSpecialties(ds));
  }

  lemma DiseaseListFacts(ds: seq<Doctor>)
    ensures forall d :: d in DiseaseList(ds) <==> exists i :: 0 <= i < |ds| && d in ds[i].specialties
    ensures forall i, j :: 0 <= i < j < |DiseaseList(ds)| ==> DiseaseList(ds)[i] != DiseaseList(ds)[j]
  {
    DedupFacts(AllSpecialties(ds));
    AllSpecialtiesMembers(ds);
  }

  lemma {:induction false} AllSpecialtiesMembers(ds: seq<Doctor>)
    ensures forall d :: d in AllSpecialties(ds) <==> exists i :: 0 <= i < |ds| && d in ds[i].specialties
  {
    if ds != [] {
      var front := ds[..|ds| - 1];
      AllSpecialtiesMembers(front);
      forall d | d in AllSpecialties(ds) ensures exists i :: 0 <= i < |ds| && d in ds[i].specialties {
        if d in AllSpecialties(front) {
          var i :| 0 <= i < |front| && d in front[i].specialties;
          assert ds[i] == front[i];
        } else {
          assert d in ds[|ds| - 1].specialties;
        }
      }
      forall d | (exists i :: 0 <= i < |ds| && d in ds[i].specialties) ensures d in AllSpecialties(ds) {
        var i :| 0 <= i < |ds| && d in ds[i].specialties;
        if i < |ds| - 1 {
          assert front[i] == ds[i];
        }
      }
    }
  }

  /** One more doctor adds their specialties at the end. */
  lemma AllSpecialtiesStep(ds: seq<Doctor>, i: nat)
    requires i < |ds|
    ensures AllSpecialties(ds[..i + 1]) == AllSpecialties(ds[..i]) + ds[i].specialties
  {
    assert ds[..i + 1][..i] == ds[..i];
  }

  /** The specialties of the fresh roster, doctor by doctor. */
  lemma InitialSpecialties()
    ensures AllSpecialties(InitialRoster()) ==
      ["Flu", "Cold", "Diabetes", "Hypertension", "Asthma", "Allergy", "Fever", "Flu", "Cold", "Migraine"] +
      ["Diabetes", "Obesity", "Hypertension", "Heart Disease", "Allergy", "Skin Infection", "Asthma", "Pneumonia", "Fever", "Infection"]
  {
    var ds := InitialRoster();
    assert ds[..0] == [];
    AllSpecialtiesStep(ds, 0);
    assert AllSpecialties(ds[..1]) == ["Flu", "Cold"];
    AllSpecialtiesStep(ds, 1);
    assert AllSpecialties(ds[..2]) == ["Flu", "Cold", "Diabetes", "Hypertension"];
    AllSpecialtiesStep(ds, 2);
    assert AllSpecialties(ds[..3]) == ["Flu", "Cold", "Diabetes", "Hypertension", "Asthma", "Allergy"];
    AllSpecialtiesStep(ds, 3);
    assert AllSpecialties(ds[..4]) == ["Flu", "Cold", "Diabetes", "Hypertension", "Asthma", "Allergy", "Fever", "Flu"];
    AllSpecialtiesStep(ds, 4);
    assert AllSpecialties(ds[..5]) == ["Flu", "Cold", "Diabetes", "Hypertension", "Asthma", "Allergy", "Fever", "Flu", "Cold", "Migraine"];
    AllSpecialtiesStep(ds, 5);
    assert AllSpecialties(ds[..6]) == ["Flu", "Cold", "Diabetes", "Hypertension", "Asthma", "Allergy", "Fever", "Flu", "Cold", "Migraine", "Diabetes", "Obesity"];
    AllSpecialtiesStep(ds, 6);
    assert AllSpecialties(ds[..7]) == ["Flu", "Cold", "Diabetes", "Hypertension", "Asthma", "Allergy", "Fever", "Flu", "Cold", "Migraine", "Diabetes", "Obesity", "Hypertension", "Heart Disease"];
    AllSpecialtiesStep(ds, 7);
    assert AllSpecialties(ds[..8]) == ["Flu", "Cold", "Diabetes", "Hypertension", "Asthma", "Allergy", "Fever", "Flu", "Cold", "Migraine", "Diabetes", "Obesity", "Hypertension", "Heart Disease", "Allergy", "Skin Infection"];
    AllSpecialtiesStep(ds, 8);
    assert AllSpecialties(ds[..9]) == ["Flu", "Cold", "Diabetes", "Hypertension", "Asthma", "Allergy", "Fever", "Flu", "Cold", "Migraine", "Diabetes", "Obesity", "Hypertension", "Heart Disease", "Allergy", "Skin Infection", "Asthma", "Pneumonia"];
    AllSpecialtiesStep(ds, 9);
    assert AllSpecialties(ds[..10]) == ["Flu", "Cold", "Diabetes", "Hypertension", "Asthma", "Allergy", "Fever", "Flu", "Cold", "Migraine", "Diabetes", "Obesity", "Hypertension", "Heart Disease", "Allergy", "Skin Infection", "Asthma", "Pneumonia", "Fever", "Infection"];
    assert ds[..10] == ds;
  }

  /** Every disease the roster's menu offers has a base cost. */
  lemma RosterDiseasesPriced(ds: seq<Doctor>)
    requires IsRoster(ds)
    ensures forall d :: d in DiseaseList(ds) ==> d in DiseaseCost
  {
    DiseaseListFacts(ds);
    RosterNames(ds);
    InitialRosterFacts();
  }

  /** The nested loop in `addPatient`/`addEmergencyPatient` that builds the disease menu. */
  method BuildDiseaseList(ds: seq<Doctor>) returns (list: seq<string>)
    ensures list == DiseaseList(ds)
  {
    list := [];
    var i := 0;
    while i < |ds|
      invariant 0 <= i <= |ds|
      invariant list == Dedup(AllSpecialties(ds[..i]))
    {
      var specs := ds[i].specialties;
      var j := 0;
      assert AllSpecialties(ds[..i]) + specs[..0] == AllSpecialties(ds[..i]);
      while j < |specs|
        invariant 0 <= j <= |specs|
        invariant list == Dedup(AllSpecialties(ds[..i]) + specs[..j])
      {
        var d := specs[j];
        ghost var before := AllSpecialties(ds[..i]) + specs[..j];
        assert (before + [d])[..|before|] == before;
        assert AllSpecialties(ds[..i]) + specs[..j + 1] == before + [d];
        if d !in list {
          list := list + [d];
        }
        j := j + 1;
      }
      assert specs[..j] == specs;
      assert ds[..i + 1][..i] == ds[..i];
      i := i + 1;
    }
    assert ds[..i] == ds;
  }

  // ---------------------------------------------------------------------------
  // Least-cost recommendation

  /** What a visit to `d` costs for the disease and severity; defined when both are priced. */
  function VisitCost(d: Doctor, disease: string, severity: string): real
    requires Priced(disease, severity)
  {
    DiseaseCost[disease] * SeverityMultiplier[severity] + d.surcharge
  }

  /** `d` treats the disease, both keys are priced, and the cost beats the sentinel. */
  predicate Eligible(d: Doctor, disease: string, severity: string)
  {
    disease in d.specialties && Priced(disease, severity) && VisitCost(d, disease, severity) < Sentinel
  }

  /**
   * Position of the cheapest eligible doctor, the earliest one among equals,
   * or -1 when no doctor is eligible.
   */
  function LeastCostIndex(ds: seq<Doctor>, disease: string, severity: string): (r: int)
    ensures -1 <= r < |ds|
    ensures r == -1 <==> forall i :: 0 <= i < |ds| ==> !Eligible(ds[i], disease, severity)
    ensures r >= 0 ==> Eligible(ds[r], disease, severity)
    ensures r >= 0 ==> forall i :: 0 <= i < |ds| && Eligible(ds[i], disease, severity) ==>
      VisitCost(ds[r], disease, severity) <= VisitCost(ds[i], disease, severity)
    ensures r >= 0 ==> forall i :: 0 <= i < r && Eligible(ds[i], disease, severity) ==>
      VisitCost(ds[r], disease, severity) < VisitCost(ds[i], disease, severity)
  {
    if ds == [] then -1
    else
      var k := LeastCostIndex(ds[..|ds| - 1], disease, severity);
      var last := ds[|ds| - 1];
      if Eligible(last, disease, severity) && (k == -1 || VisitCost(last, disease, severity) < VisitCost(ds[k], disease, severity))
      then |ds| - 1
      else k
  }

  /** The recommended name: the cheapest doctor's, or the first doctor's when none qualifies. */
  function RecommendedName(ds: seq<Doctor>, disease: string, severity: string): string
    requires |ds| > 0
  {
    var k := LeastCostIndex(ds, disease, severity);
    if k >= 0 && ds[k].name != "" then ds[k].name else ds[0].name
  }

  /** `recommendLeastCostDoctor`: the scan with a running minimum and a strict comparison. */
  method RecommendLeastCostDoctor(ds: seq<Doctor>, disease: string, severity: string) returns (r: string)
    requires |ds| > 0
    ensures r == RecommendedName(ds, disease, severity)
  {
    var minCost := Sentinel;
    var recommended := "";
    ghost var k := -1;
    var i := 0;
    while i < |ds|
      invariant 0 <= i <= |ds|
      invariant -1 <= k < i
      invariant k == LeastCostIndex(ds[..i], disease, severity)
      invariant k >= 0 ==> Eligible(ds[k], disease, severity)
      invariant recommended == (if k >= 0 then ds[k].name else "")
      invariant minCost == (if k >= 0 then VisitCost(ds[k], disease, severity) else Sentinel)
    {
      assert ds[..i + 1][..i] == ds[..i];
      var doc := ds[i];
      if disease in doc.specialties {
        if disease in DiseaseCost && severity in SeverityMultiplier {
          var cost := DiseaseCost[disease] * SeverityMultiplier[severity] + doc.surcharge;
          if cost < minCost {
            minCost := cost;
            recommended := doc.name;
            k := i;
          }
        }
      }
      i := i + 1;
    }
    assert ds[..i] == ds;
    r := if recommended == "" then ds[0].name else recommended;
  }

  /**
   * When some doctor is eligible and names are non-empty, the recommendation
   * names an eligible doctor of least cost, no earlier doctor costing the same;
   * otherwise it is the first doctor.
   */
  lemma RecommendationIsLeastCost(ds: seq<Doctor>, disease: string, severity: string)
    requires |ds| > 0
    requires forall i :: 0 <= i < |ds| ==> ds[i].name != ""
    ensures (forall i :: 0 <= i < |ds| ==> !Eligible(ds[i], disease, severity)) ==>
      RecommendedName(ds, disease, severity) == ds[0].name
    ensures (exists i :: 0 <= i < |ds| && Eligible(ds[i], disease, severity)) ==>
      exists k :: 0 <= k < |ds| && RecommendedName(ds, disease, severity) == ds[k].name &&
        Eligible(ds[k], disease, severity) &&
        (forall i :: 0 <= i < |ds| && Eligible(ds[i], disease, severity) ==>
          VisitCost(ds[k], disease, severity) <= VisitCost(ds[i], disease, severity)) &&
        (forall i :: 0 <= i < k && Eligible(ds[i], disease, severity) ==>
          VisitCost(ds[k], disease, severity) < VisitCost(ds[i], disease, severity))
  {
    var k := LeastCostIndex(ds, disease, severity);
    if k >= 0 {
      assert RecommendedName(ds, disease, severity) == ds[k].name;
    }
  }

  /** On the roster every doctor who treats a priced disease is eligible (costs stay far below the sentinel). */
  lemma RosterEligibility(ds: seq<Doctor>, disease: string, severity: string, i: int)
    requires IsRoster(ds) && 0 <= i < |ds| && Priced(disease, severity)
    ensures Eligible(ds[i], disease, severity) <==> disease in ds[i].specialties
  {
    RosterNames(ds);
    assert DiseaseCost[disease] <= 5000.0;
    assert SeverityMultiplier[severity] <= 2.0;
    assert ds[i].surcharge <= 2500.0;
  }

  /** Flu, Mild: Dr. Smith (1800) beats Dr. Taylor (1900). */
  lemma RecommendFluMild()
    ensures RecommendedName(InitialRoster(), "Flu", "Mild") == "Dr. Smith"
  {
    var r := InitialRoster();
    assert Eligible(r[0], "Flu", "Mild");
    var k := LeastCostIndex(r, "Flu", "Mild");
    assert k == 0 || k == 3 by {
      assert Eligible(r[k], "Flu", "Mild");
    }
  }

  /** Heart Disease, Severe: only Dr. Clark treats it. */
  lemma RecommendHeartDiseaseSevere()
    ensures RecommendedName(InitialRoster(), "Heart Disease", "Severe") == "Dr. Clark"
  {
    var r := InitialRoster();
    assert Eligible(r[6], "Heart Disease", "Severe");
    var k := LeastCostIndex(r, "Heart Disease", "Severe");
    assert k == 6 by {
      assert Eligible(r[k], "Heart Disease", "Severe");
    }
  }

  /** A severity outside the table leaves no doctor eligible, so Dr. Smith is named. */
  lemma RecommendUnpricedFallsBack(disease: string, severity: string)
    requires severity !in SeverityMultiplier
    ensures RecommendedName(InitialRoster(), disease, severity) == "Dr. Smith"
  {
  }
}
