/**
 * The `Hospital` object: the roster, the patient ledger and the room
 * vector, changed together by admissions, discharges and loading, and read
 * by bills, the summary report and saving. Console input arrives as
 * already-parsed arguments and console output is returned as values.
 */
module HospitalLedger {
  import opened Text
  import opened Billing
  import opened Roster
  import opened Rooms
  import opened Ledger
  import opened Codec

  /** How an admission ended. */
  datatype Admission = Admitted(room: int) | InvalidName | InvalidDisease | NoRoom

  /** Picking entry `choice` of a numbered list: the entry, an empty list, or a number outside it. */
  datatype Selection<T> = Selected(value: T) | NothingListed | OutOfRange

  /** What a bill shows: the record, its doctor's surcharge and the total. */
  datatype Invoice = Invoice(patient: Patient, surcharge: real, cost: real)

  /** A typed severity, or `fallback` when it is none of the three known ones. */
  function SeverityOr(severity: string, fallback: string): string
  {
    if IsSeverity(severity) then severity else fallback
  }

  /**
   * The doctor a regular admission assigns: the recommendation when the
   * answer is `y` or `Y`, otherwise the typed name if some roster doctor
   * has it, else the recommendation again.
   */
  function ChosenDoctor(ds: seq<Doctor>, recommended: string, answer: char, alternate: string): (r: string)
    ensures r == recommended || (r == alternate && answer != 'y' && answer != 'Y')
  {
    if answer == 'y' || answer == 'Y' then recommended
    else if FindDoctor(ds, alternate) >= 0 then alternate
    else recommended
  }

  /**
   * Whatever is typed, a regular admission assigns a doctor on the roster;
   * a known alternate is taken even when it does not treat the disease.
   */
  lemma ChosenDoctorOnRoster(ds: seq<Doctor>, disease: string, severity: string, answer: char, alternate: string)
    requires |ds| > 0
    ensures var r := ChosenDoctor(ds, RecommendedName(ds, disease, severity), answer, alternate);
      FindDoctor(ds, r) >= 0
    ensures answer != 'y' && answer != 'Y' && FindDoctor(ds, alternate) >= 0 ==>
      ChosenDoctor(ds, RecommendedName(ds, disease, severity), answer, alternate) == alternate
  {
    var k := LeastCostIndex(ds, disease, severity);
    var rec := RecommendedName(ds, disease, severity);
    FindDoctorFacts(ds, rec);
    if k >= 0 && ds[k].name != "" {
      assert ds[k].name == rec;
    } else {
      assert ds[0].name == rec;
    }
  }

  /**
   * The doctors-section skip of `loadFromFile`: per doctor a marker line
   * (stop unless it is `DOCTOR`), four lines whose last is the specialty
   * count, then the specialties.
   */
  method SkipDoctorSection(lines: seq<string>, pos: nat, n: int) returns (next: nat)
    requires pos <= |lines|
    ensures next == SkipDoctors(lines, pos, n)
  {
    next := pos;
    var left := n;
    while left > 0
      invariant next <= |lines|
      invariant SkipDoctors(lines, next, left) == SkipDoctors(lines, pos, n)
    {
      var stop, after := SkipDoctorRecord(lines, next, left);
      if stop {
        next := after;
        return;
      }
      next, left := after, left - 1;
    }
  }

  /**
   * One round of the doctors skip: a marker other than `DOCTOR` ends the skip
   * one line further on; a `DOCTOR` marker moves past the record.
   */
  method SkipDoctorRecord(lines: seq<string>, pos: nat, n: int) returns (stop: bool, next: nat)
    requires pos <= |lines| && n > 0
    ensures next <= |lines|
    ensures stop ==> next == SkipDoctors(lines, pos, n)
    ensures !stop ==> SkipDoctors(lines, next, n - 1) == SkipDoctors(lines, pos, n)
  {
    if Line(lines, pos) != "DOCTOR" {
      return true, Advance(lines, pos, 1);
    }
    var p := pos + 1;
    var numSpec := SafeStoi(Line(lines, p + 3), 0);
    return false, Advance(lines, Advance(lines, p, 4), numSpec);
  }

  /** One more patient adds its own share to its doctor's sums and nothing to the others'. */
  lemma SumsSnoc(ps: seq<Patient>, i: nat, n: string, ds: seq<Doctor>)
    requires i < |ps|
    ensures AssignedNames(ps[..i + 1]) == AssignedNames(ps[..i]) + {ps[i].assignedDoctor}
    ensures AssignedCount(ps[..i + 1], n) == AssignedCount(ps[..i], n) + (if ps[i].assignedDoctor == n then 1 else 0)
    ensures RevenueOf(ps[..i + 1], n, ds) ==
      RevenueOf(ps[..i], n, ds) + (if ps[i].assignedDoctor == n then FreshBill(ps[i], ds) else 0.0)
    ensures TotalRevenue(ps[..i + 1], ds) == TotalRevenue(ps[..i], ds) + FreshBill(ps[i], ds)
  {
    assert ps[..i + 1][..i] == ps[..i];
  }

  /** The first loop of `summaryReport`: every roster name starts at zero. */
  method ZeroedReport(ds: seq<Doctor>) returns (counts: map<string, int>, revenue: map<string, real>)
    ensures counts.Keys == NameSet(ds) && revenue.Keys == counts.Keys
    ensures forall n :: n in counts ==> counts[n] == 0
    ensures forall n :: n in revenue ==> revenue[n] == 0.0
  {
    counts := map[];
    revenue := map[];
    var i := 0;
    while i < |ds|
      invariant 0 <= i <= |ds|
      invariant counts.Keys == NameSet(ds[..i]) && revenue.Keys == counts.Keys
      invariant forall n :: n in counts ==> counts[n] == 0
      invariant forall n :: n in revenue ==> revenue[n] == 0.0
    {
      counts := counts[ds[i].name := 0];
      revenue := revenue[ds[i].name := 0.0];
      assert ds[..i + 1][..i] == ds[..i];
      i := i + 1;
    }
    assert ds[..i] == ds;
  }

  lemma CountStep(ps: seq<Patient>, i: nat, ds: seq<Doctor>, before: map<string, int>, after: map<string, int>)
    requires i < |ps|
    requires forall n :: n in before ==> before[n] == AssignedCount(ps[..i], n)
    requires ps[i].assignedDoctor !in before ==> AssignedCount(ps[..i], ps[i].assignedDoctor) == 0
    requires after == before[ps[i].assignedDoctor :=
      (if ps[i].assignedDoctor in before then before[ps[i].assignedDoctor] else 0) + 1]
    ensures forall n :: n in after ==> after[n] == AssignedCount(ps[..i + 1], n)
  {
    forall n | n in after ensures after[n] == AssignedCount(ps[..i + 1], n) {
      SumsSnoc(ps, i, n, ds);
    }
  }

  lemma RevenueStep(ps: seq<Patient>, i: nat, ds: seq<Doctor>, before: map<string, real>, after: map<string, real>)
    requires i < |ps|
    requires forall n :: n in before ==> before[n] == RevenueOf(ps[..i], n, ds)
    requires ps[i].assignedDoctor !in before ==> RevenueOf(ps[..i], ps[i].assignedDoctor, ds) == 0.0
    requires after == before[ps[i].assignedDoctor :=
      (if ps[i].assignedDoctor in before then before[ps[i].assignedDoctor] else 0.0) + FreshBill(ps[i], ds)]
    ensures forall n :: n in after ==> after[n] == RevenueOf(ps[..i + 1], n, ds)
  {
    forall n | n in after ensures after[n] == RevenueOf(ps[..i + 1], n, ds) {
      SumsSnoc(ps, i, n, ds);
    }
  }

  /** Invariant of the tally loop of `summaryReport` after the first `i` patients. */
  ghost predicate Tallied(ps: seq<Patient>, ds: seq<Doctor>, counts: map<string, int>, revenue: map<string, real>, total: real)
  {
    && counts.Keys == NameSet(ds) + AssignedNames(ps) && revenue.Keys == counts.Keys
    && (forall n :: n in counts ==> counts[n] == AssignedCount(ps, n))
    && (forall n :: n in revenue ==> revenue[n] == RevenueOf(ps, n, ds))
    && total == TotalRevenue(ps, ds)
  }

  lemma TallyStep(ps: seq<Patient>, i: nat, ds: seq<Doctor>, counts: map<string, int>, revenue: map<string, real>, total: real,
                  counts': map<string, int>, revenue': map<string, real>, total': real)
    requires i < |ps| && Tallied(ps[..i], ds, counts, revenue, total)
    requires counts' == counts[ps[i].assignedDoctor :=
      (if ps[i].assignedDoctor in counts then counts[ps[i].assignedDoctor] else 0) + 1]
    requires revenue' == revenue[ps[i].assignedDoctor :=
      (if ps[i].assignedDoctor in revenue then revenue[ps[i].assignedDoctor] else 0.0) + FreshBill(ps[i], ds)]
    requires total' == total + FreshBill(ps[i], ds)
    ensures Tallied(ps[..i + 1], ds, counts', revenue', total')
  {
    TallyMapsStep(ps, i, ds, counts, revenue, counts', revenue');
    SumsSnoc(ps, i, ps[i].assignedDoctor, ds);
  }

  lemma TallyMapsStep(ps: seq<Patient>, i: nat, ds: seq<Doctor>, counts: map<string, int>, revenue: map<string, real>,
                      counts': map<string, int>, revenue': map<string, real>)
    requires i < |ps| && counts.Keys == NameSet(ds) + AssignedNames(ps[..i]) && revenue.Keys == counts.Keys
    requires forall n :: n in counts ==> counts[n] == AssignedCount(ps[..i], n)
    requires forall n :: n in revenue ==> revenue[n] == RevenueOf(ps[..i], n, ds)
    requires counts' == counts[ps[i].assignedDoctor :=
      (if ps[i].assignedDoctor in counts then counts[ps[i].assignedDoctor] else 0) + 1]
    requires revenue' == revenue[ps[i].assignedDoctor :=
      (if ps[i].assignedDoctor in revenue then revenue[ps[i].assignedDoctor] else 0.0) + FreshBill(ps[i], ds)]
    ensures forall n :: n in counts' ==> counts'[n] == AssignedCount(ps[..i + 1], n)
    ensures forall n :: n in revenue' ==> revenue'[n] == RevenueOf(ps[..i + 1], n, ds)
  {
    var name := ps[i].assignedDoctor;
    if name !in counts {
      UnassignedHasNothing(ps[..i], name, ds);
    }
    CountStep(ps, i, ds, counts, counts');
    RevenueStep(ps, i, ds, revenue, revenue');
  }

  /** One round of the tally loop: patient `i` adds one to its doctor's count and its bill to the revenues. */
  method TallyPatient(ps: seq<Patient>, i: nat, ds: seq<Doctor>, counts: map<string, int>, revenue: map<string, real>, total: real)
    returns (counts': map<string, int>, revenue': map<string, real>, total': real)
    requires i < |ps| && Tallied(ps[..i], ds, counts, revenue, total)
    ensures Tallied(ps[..i + 1], ds, counts', revenue', total')
  {
    var name := ps[i].assignedDoctor;
    var surcharge := DoctorSurcharge(ds, name);
    var cost := Bill(ps[i], surcharge);
    var c := if name in counts then counts[name] else 0;
    var r := if name in revenue then revenue[name] else 0.0;
    counts', revenue', total' := counts[name := c + 1], revenue[name := r + cost], total + cost;
    TallyStep(ps, i, ds, counts, revenue, total, counts', revenue', total');
  }

  /** The second loop of `summaryReport`: one pass over the patients. */
  method Tally(ps: seq<Patient>, ds: seq<Doctor>, counts0: map<string, int>, revenue0: map<string, real>)
    returns (counts: map<string, int>, revenue: map<string, real>, total: real)
    requires counts0.Keys == NameSet(ds) && revenue0.Keys == counts0.Keys
    requires forall n :: n in counts0 ==> counts0[n] == 0
    requires forall n :: n in revenue0 ==> revenue0[n] == 0.0
    ensures Tallied(ps, ds, counts, revenue, total)
  {
    counts, revenue := counts0, revenue0;
    total := 0.0;
    var i := 0;
    while i < |ps|
      invariant 0 <= i <= |ps|
      invariant Tallied(ps[..i], ds, counts, revenue, total)
    {
      counts, revenue, total := TallyPatient(ps, i, ds, counts, revenue, total);
      i := i + 1;
    }
    assert ps[..i] == ps;
  }

  /** The doctors loop of `saveToFile`: each doctor's `Doctor::save` lines, in roster order. */
  method WriteDoctors(ds: seq<Doctor>) returns (block: seq<string>)
    ensures block == DoctorsBlock(ds)
  {
    block := [];
    var i := 0;
    while i < |ds|
      invariant 0 <= i <= |ds|
      invariant block == DoctorsBlock(ds[..i])
    {
      DoctorsBlockSnoc(ds[..i], ds[i]);
      assert ds[..i + 1] == ds[..i] + [ds[i]];
      block := block + DoctorLines(ds[i]);
      i := i + 1;
    }
    assert ds[..i] == ds;
  }

  /** The patients loop of `saveToFile`: six lines per record, in ledger order. */
  method WritePatients(ps: seq<Patient>) returns (block: seq<string>)
    ensures block == PatientsBlock(ps)
  {
    block := [];
    var i := 0;
    while i < |ps|
      invariant 0 <= i <= |ps|
      invariant block == PatientsBlock(ps[..i])
    {
      PatientsBlockSnoc(ps[..i], ps[i]);
      assert ps[..i + 1] == ps[..i] + [ps[i]];
      block := block + PatientLines(ps[i]);
      i := i + 1;
    }
    assert ps[..i] == ps;
  }

  /** The rooms loop of `saveToFile`: `1` for an occupied room, `0` for a free one. */
  method WriteRooms(rooms: seq<bool>) returns (block: seq<string>)
    ensures block == RoomLines(rooms)
  {
    block := [];
    var i := 0;
    while i < |rooms|
      invariant 0 <= i <= |rooms|
      invariant block == RoomLines(rooms[..i])
    {
      assert RoomLines(rooms[..i + 1]) == RoomLines(rooms[..i]) + [FlagText(rooms[i])];
      block := block + [if rooms[i] then "1" else "0"];
      i := i + 1;
    }
    assert rooms[..i] == rooms;
  }

  class Hospital {
    var doctors: seq<Doctor>
    var patients: seq<Patient>
    var rooms: seq<bool>

    /** The doctors are always the fixed roster; only their counts move. */
    ghost predicate Valid()
      reads this
    {
      IsRoster(doctors)
    }

    /** Ledger, room flags and doctor counts agree. */
    ghost predicate Consistent()
      reads this
    {
      Ledger.Consistent(patients, rooms, doctors)
    }

    /** A fresh hospital: the roster with zero counts, no patients, every room free. */
    constructor ()
      ensures doctors == InitialRoster() && patients == [] && rooms == FreshRooms()
      ensures Valid() && Consistent()
    {
      doctors := InitialRoster();
      patients := [];
      rooms := FreshRooms();
      InitialRosterFacts();
      FreshIsConsistent();
    }

    /** The count update loop: the first doctor named `name`, if any, gains `delta`. */
    method AdjustCount(name: string, delta: int)
      modifies this
      ensures doctors == WithCountDelta(old(doctors), name, delta)
      ensures patients == old(patients) && rooms == old(rooms)
      ensures old(Valid()) ==> Valid()
    {
      if IsRoster(doctors) {
        WithCountDeltaKeepsRoster(doctors, name, delta);
      }
      FindDoctorFacts(doctors, name);
      var i := 0;
      while i < |doctors|
        invariant 0 <= i <= |doctors|
        invariant doctors == old(doctors) && patients == old(patients) && rooms == old(rooms)
        invariant forall j :: 0 <= j < i ==> doctors[j].name != name
      {
        if doctors[i].name == name {
          assert FindDoctor(doctors, name) == i;
          doctors := doctors[i := doctors[i].(patientCount := doctors[i].patientCount + delta)];
          return;
        }
        i := i + 1;
      }
    }

    /**
     * What both admissions do once the name, disease and doctor are settled:
     * take the lowest free room, count the patient for its doctor, flag the
     * room and append the record; with no free room nothing changes.
     */
    method AdmitInFreeRoom(kind: Kind, name: string, disease: string, doctor: string, severity: string)
      returns (outcome: Admission)
      requires Valid()
      modifies this
      ensures Valid()
      ensures outcome == NoRoom || outcome.Admitted?
      ensures outcome == NoRoom <==> forall i :: 0 <= i < |old(rooms)| ==> old(rooms)[i]
      ensures outcome == NoRoom ==> doctors == old(doctors) && patients == old(patients) && rooms == old(rooms)
      ensures outcome.Admitted? ==>
        LowestFree(old(rooms), outcome.room - 1) &&
        patients == old(patients) + [Patient(kind, name, disease, doctor, severity, outcome.room)] &&
        rooms == old(rooms)[outcome.room - 1 := true] &&
        doctors == WithCountDelta(old(doctors), doctor, 1)
      ensures old(Consistent()) ==> Consistent()
    {
      ghost var ps0, rs0, ds0 := patients, rooms, doctors;
      ghost var wasConsistent := Consistent();
      var roomIndex := FindAvailableRoom(rooms);
      if roomIndex == -1 {
        return NoRoom;
      }
      var p := Patient(kind, name, disease, doctor, severity, roomIndex + 1);
      Admit(p);
      if wasConsistent {
        AdmitKeepsConsistent(ps0, rs0, ds0, p);
      }
      outcome := Admitted(roomIndex + 1);
    }

    /** The count update, room flag and ledger entry of an admission, in the code's order. */
    method Admit(p: Patient)
      requires 1 <= p.roomNumber <= |rooms|
      modifies this
      ensures doctors == WithCountDelta(old(doctors), p.assignedDoctor, 1)
      ensures rooms == old(rooms)[p.roomNumber - 1 := true]
      ensures patients == old(patients) + [p]
      ensures old(Valid()) ==> Valid()
      ensures TotalRevenue(patients, doctors) == old(TotalRevenue(patients, doctors)) + FreshBill(p, old(doctors))
    {
      AdmitRaisesTotal(patients, doctors, p);
      AdjustCount(p.assignedDoctor, 1);
      rooms := rooms[p.roomNumber - 1 := true];
      patients := patients + [p];
    }

    /**
     * `addPatient`: checks the name, the disease number against the
     * deduplicated specialty list and then the rooms, changing nothing until
     * a room is found; an unknown severity becomes `Mild` and the answer to
     * the recommendation picks the doctor.
     */
    method AddPatient(name: string, choice: int, severity: string, answer: char, alternate: string)
      returns (outcome: Admission)
      requires Valid()
      modifies this
      ensures Valid()
      ensures name == "" ==> outcome == InvalidName
      ensures name != "" && !(1 <= choice <= |DiseaseList(old(doctors))|) ==> outcome == InvalidDisease
      ensures name != "" && 1 <= choice <= |DiseaseList(old(doctors))| ==>
        (outcome == NoRoom <==> forall i :: 0 <= i < |old(rooms)| ==> old(rooms)[i])
      ensures !outcome.Admitted? ==> doctors == old(doctors) && patients == old(patients) && rooms == old(rooms)
      ensures outcome.Admitted? ==>
        name != "" && 1 <= choice <= |DiseaseList(old(doctors))| && LowestFree(old(rooms), outcome.room - 1) &&
        var disease := DiseaseList(old(doctors))[choice - 1];
        var sev := SeverityOr(severity, "Mild");
        var doctor := ChosenDoctor(old(doctors), RecommendedName(old(doctors), disease, sev), answer, alternate);
        patients == old(patients) + [Patient(Regular, name, disease, doctor, sev, outcome.room)] &&
        rooms == old(rooms)[outcome.room - 1 := true] &&
        doctors == WithCountDelta(old(doctors), doctor, 1)
      ensures old(Consistent()) ==> Consistent()
    {
      if name == "" {
        return InvalidName;
      }
      var diseaseList := BuildDiseaseList(doctors);
      if choice < 1 || choice > |diseaseList| {
        return InvalidDisease;
      }
      var disease := diseaseList[choice - 1];
      var sev := if IsSeverity(severity) then severity else "Mild";
      RosterSize(doctors);
      var chosen := RecommendLeastCostDoctor(doctors, disease, sev);
      if answer != 'y' && answer != 'Y' {
        var k := FindDoctorIndex(doctors, alternate);
        if k >= 0 {
          chosen := alternate;
        }
      }
      outcome := AdmitInFreeRoom(Regular, name, disease, chosen, sev);
    }

    /**
     * `addEmergencyPatient`: the same checks; an unknown severity becomes
     * `Moderate` and the recommended doctor is always assigned.
     */
    method AddEmergencyPatient(name: string, choice: int, severity: string) returns (outcome: Admission)
      requires Valid()
      modifies this
      ensures Valid()
      ensures name == "" ==> outcome == InvalidName
      ensures name != "" && !(1 <= choice <= |DiseaseList(old(doctors))|) ==> outcome == InvalidDisease
      ensures name != "" && 1 <= choice <= |DiseaseList(old(doctors))| ==>
        (outcome == NoRoom <==> forall i :: 0 <= i < |old(rooms)| ==> old(rooms)[i])
      ensures !outcome.Admitted? ==> doctors == old(doctors) && patients == old(patients) && rooms == old(rooms)
      ensures outcome.Admitted? ==>
        name != "" && 1 <= choice <= |DiseaseList(old(doctors))| && LowestFree(old(rooms), outcome.room - 1) &&
        var disease := DiseaseList(old(doctors))[choice - 1];
        var sev := SeverityOr(severity, "Moderate");
        var doctor := RecommendedName(old(doctors), disease, sev);
        patients == old(patients) + [Patient(Emergency, name, disease, doctor, sev, outcome.room)] &&
        rooms == old(rooms)[outcome.room - 1 := true] &&
        doctors == WithCountDelta(old(doctors), doctor, 1)
      ensures old(Consistent()) ==> Consistent()
    {
      if name == "" {
        return InvalidName;
      }
      var diseaseList := BuildDiseaseList(doctors);
      if choice < 1 || choice > |diseaseList| {
        return InvalidDisease;
      }
      var disease := diseaseList[choice - 1];
      var sev := if IsSeverity(severity) then severity else "Moderate";
      RosterSize(doctors);
      var chosen := RecommendLeastCostDoctor(doctors, disease, sev);
      outcome := AdmitInFreeRoom(Emergency, name, disease, chosen, sev);
    }

    /** The changes both discharges make: count, room flag if in range, erase keeping order. */
    method Discharge(k: nat) returns (p: Patient)
      requires k < |patients|
      modifies this
      ensures p == old(patients)[k]
      ensures doctors == WithCountDelta(old(doctors), p.assignedDoctor, -1)
      ensures rooms == MarkRoom(old(rooms), p.roomNumber, false)
      ensures patients == RemoveAt(old(patients), k)
      ensures old(Valid()) ==> Valid()
      ensures old(Consistent()) ==> Consistent()
      ensures TotalRevenue(patients, doctors) == old(TotalRevenue(patients, doctors)) - FreshBill(p, old(doctors))
    {
      p := patients[k];
      DischargeLowersTotal(patients, doctors, k);
      AdjustCount(p.assignedDoctor, -1);
      var roomIndex := p.roomNumber - 1;
      if 0 <= roomIndex < |rooms| {
        rooms := rooms[roomIndex := false];
      }
      patients := patients[..k] + patients[k + 1..];
      if old(Consistent()) {
        DischargeKeepsConsistent(old(patients), old(rooms), old(doctors), k);
      }
    }

    /** `dischargePatient`: entry `choice` of the whole ledger. */
    method DischargePatient(choice: int) returns (s: Selection<Patient>)
      requires Valid()
      modifies this
      ensures Valid()
      ensures old(patients) == [] ==> s == NothingListed
      ensures old(patients) != [] && !(1 <= choice <= |old(patients)|) ==> s == OutOfRange
      ensures !s.Selected? ==> doctors == old(doctors) && patients == old(patients) && rooms == old(rooms)
      ensures 1 <= choice <= |old(patients)| ==>
        var p := old(patients)[choice - 1];
        s == Selected(p) &&
        patients == RemoveAt(old(patients), choice - 1) &&
        rooms == MarkRoom(old(rooms), p.roomNumber, false) &&
        doctors == WithCountDelta(old(doctors), p.assignedDoctor, -1)
      ensures s.Selected? ==>
        TotalRevenue(patients, doctors) == old(TotalRevenue(patients, doctors)) - FreshBill(s.value, old(doctors))
      ensures old(Consistent()) ==> Consistent()
    {
      if patients == [] {
        return NothingListed;
      }
      if choice < 1 || choice > |patients| {
        return OutOfRange;
      }
      var p := Discharge(choice - 1);
      s := Selected(p);
    }

    /** `dischargeEmergencyPatient`: `choice` numbers the emergency patients only, in ledger order. */
    method DischargeEmergencyPatient(choice: int) returns (s: Selection<Patient>)
      requires Valid()
      modifies this
      ensures Valid()
      ensures var e := EmergencyPositions(old(patients));
        (e == [] ==> s == NothingListed) && (e != [] && !(1 <= choice <= |e|) ==> s == OutOfRange)
      ensures !s.Selected? ==> doctors == old(doctors) && patients == old(patients) && rooms == old(rooms)
      ensures var e := EmergencyPositions(old(patients));
        1 <= choice <= |e| ==>
          0 <= e[choice - 1] < |old(patients)| &&
          var p := old(patients)[e[choice - 1]];
          p.kind == Emergency && s == Selected(p) &&
          patients == RemoveAt(old(patients), e[choice - 1]) &&
          rooms == MarkRoom(old(rooms), p.roomNumber, false) &&
          doctors == WithCountDelta(old(doctors), p.assignedDoctor, -1)
      ensures s.Selected? ==>
        TotalRevenue(patients, doctors) == old(TotalRevenue(patients, doctors)) - FreshBill(s.value, old(doctors))
      ensures old(Consistent()) ==> Consistent()
    {
      var indices := EmergencyIndices(patients);
      if indices == [] {
        return NothingListed;
      }
      if choice < 1 || choice > |indices| {
        return OutOfRange;
      }
      EmergencyPositionsFacts(patients);
      var p := Discharge(indices[choice - 1]);
      s := Selected(p);
    }

    /** `generateBill`: the bill of entry `choice`, priced with its doctor's current surcharge. */
    method GenerateBill(choice: int) returns (s: Selection<Invoice>)
      ensures patients == [] ==> s == NothingListed
      ensures patients != [] && !(1 <= choice <= |patients|) ==> s == OutOfRange
      ensures 1 <= choice <= |patients| ==>
        var p := patients[choice - 1];
        s == Selected(Invoice(p, Surcharge(doctors, p.assignedDoctor), FreshBill(p, doctors)))
    {
      if patients == [] {
        return NothingListed;
      }
      if choice < 1 || choice > |patients| {
        return OutOfRange;
      }
      var p := patients[choice - 1];
      var surcharge := DoctorSurcharge(doctors, p.assignedDoctor);
      s := Selected(Invoice(p, surcharge, Bill(p, surcharge)));
    }

    /** `generateEmergencyBill`: `choice` numbers the emergency patients only. */
    method GenerateEmergencyBill(choice: int) returns (s: Selection<Invoice>)
      ensures var e := EmergencyPositions(patients);
        (e == [] ==> s == NothingListed) && (e != [] && !(1 <= choice <= |e|) ==> s == OutOfRange)
      ensures var e := EmergencyPositions(patients);
        1 <= choice <= |e| ==>
          0 <= e[choice - 1] < |patients| &&
          var p := patients[e[choice - 1]];
          p.kind == Emergency &&
          s == Selected(Invoice(p, Surcharge(doctors, p.assignedDoctor), FreshBill(p, doctors)))
    {
      var indices := EmergencyIndices(patients);
      if indices == [] {
        return NothingListed;
      }
      if choice < 1 || choice > |indices| {
        return OutOfRange;
      }
      EmergencyPositionsFacts(patients);
      var p := patients[indices[choice - 1]];
      var surcharge := DoctorSurcharge(doctors, p.assignedDoctor);
      s := Selected(Invoice(p, surcharge, Bill(p, surcharge)));
    }

    /**
     * `summaryReport`: per name, how many patients are assigned to it and
     * the revenue they bring, and the total over every patient. Names of
     * assigned doctors outside the roster get entries too.
     */
    method SummaryReport() returns (counts: map<string, int>, revenue: map<string, real>, total: real)
      ensures counts.Keys == NameSet(doctors) + AssignedNames(patients) && revenue.Keys == counts.Keys
      ensures forall n :: n in counts ==> counts[n] == AssignedCount(patients, n)
      ensures forall n :: n in revenue ==> revenue[n] == RevenueOf(patients, n, doctors)
      ensures total == TotalRevenue(patients, doctors)
      ensures Consistent() ==> forall d :: 0 <= d < |doctors| ==>
        doctors[d].name in counts && counts[doctors[d].name] == doctors[d].patientCount
    {
      counts, revenue := ZeroedReport(doctors);
      counts, revenue, total := Tally(patients, doctors, counts, revenue);
      NameSetMembers(doctors);
    }

    /** `saveToFile`: the lines written, section by section. */
    method SaveToFile() returns (lines: seq<string>)
      ensures lines == SaveLines(doctors, patients, rooms)
    {
      var doctorLines := WriteDoctors(doctors);
      var patientLines := WritePatients(patients);
      var roomLines := WriteRooms(rooms);
      lines := ["DOCTORS " + IntToString(|doctors|)] + doctorLines +
               ["PATIENTS " + IntToString(|patients|)] + patientLines +
               ["ROOMS " + IntToString(|rooms|)] + roomLines;
    }

    /** The patients-section loop of `loadFromFile`. */
    method LoadPatientSection(lines: seq<string>, pos: nat, n: int) returns (next: nat)
      requires pos <= |lines| && Valid()
      modifies this
      ensures Valid()
      ensures (LoadState(patients, rooms, doctors), next) ==
        LoadPatients(lines, pos, n, old(LoadState(patients, rooms, doctors)))
    {
      next := pos;
      var i := 0;
      while i < n
        invariant 0 <= i && next <= |lines| && Valid()
        invariant LoadPatients(lines, next, n - i, LoadState(patients, rooms, doctors)) ==
          LoadPatients(lines, pos, n, old(LoadState(patients, rooms, doctors)))
      {
        if next >= |lines| {
          return;
        }
        var tag := lines[next];
        if tag == "EMERGENCY" || tag == "PATIENT" {
          var kind := if tag == "EMERGENCY" then Emergency else Regular;
          var p := ReadPatient(lines, next + 1, kind);
          next := Advance(lines, next + 1, 6);
          patients := patients + [p];
          var roomIndex := p.roomNumber - 1;
          if 0 <= roomIndex < |rooms| {
            rooms := rooms[roomIndex := true];
          }
          AdjustCount(p.assignedDoctor, 1);
        } else {
          next := Advance(lines, next + 1, 5);
        }
        i := i + 1;
      }
    }

    /** The rooms-section loop of `loadFromFile`: resize, then one flag per line while lines remain. */
    method LoadRoomSection(lines: seq<string>, pos: nat, n: nat)
      modifies this
      ensures rooms == LoadRooms(lines, pos, n, old(rooms))
      ensures patients == old(patients) && doctors == old(doctors)
    {
      rooms := Resize(rooms, n);
      ghost var base := rooms;
      var i := 0;
      while i < n
        invariant 0 <= i <= n && |rooms| == n
        invariant patients == old(patients) && doctors == old(doctors)
        invariant forall j :: 0 <= j < i ==> pos + j < |lines| && rooms[j] == (lines[pos + j] == "1")
        invariant forall j :: i <= j < n ==> rooms[j] == base[j]
      {
        if pos + i >= |lines| {
          break;
        }
        rooms := rooms[i := lines[pos + i] == "1"];
        i := i + 1;
      }
      assert forall j :: 0 <= j < n ==> rooms[j] == LoadRooms(lines, pos, n, old(rooms))[j];
    }

    /**
     * `loadFromFile` on an opened file whose lines are `lines`: the ledger
     * is cleared, then each section header hands its lines to its loop.
     * `ok` is false where the code throws out of the loader.
     */
    method LoadFromFile(lines: seq<string>) returns (ok: bool)
      requires Valid()
      modifies this
      ensures Valid()
      ensures var r := LoadFile(lines, old(doctors), old(rooms));
        ok == r.ok && patients == r.state.patients && rooms == r.state.rooms && doctors == r.state.doctors
      ensures old(DistinctNames(doctors) && forall d :: 0 <= d < |doctors| ==> doctors[d].patientCount == 0) ==>
        CountsMatch(patients, doctors)
    {
      if DistinctNames(doctors) && forall d :: 0 <= d < |doctors| ==> doctors[d].patientCount == 0 {
        LoadDerivesCounts(lines, doctors, rooms);
      }
      patients := [];
      var pos := 0;
      while pos < |lines|
        invariant pos <= |lines| && Valid()
        invariant LoadFrom(lines, pos, LoadState(patients, rooms, doctors)) == LoadFile(lines, old(doctors), old(rooms))
        decreases |lines| - pos
      {
        ghost var st := LoadState(patients, rooms, doctors);
        assert LoadFrom(lines, pos, st) == LoadLine(lines, pos, st);
        var line := lines[pos];
        if StartsWith(line, "DOCTORS") {
          if |line| < 8 {
            return false;
          }
          assert LoadLine(lines, pos, st) == LoadAfterDoctors(lines, pos, st);
          pos := SkipDoctorSection(lines, pos + 1, SafeStoi(line[8..], 0));
        } else if StartsWith(line, "PATIENTS") {
          if |line| < 9 {
            return false;
          }
          assert LoadLine(lines, pos, st) == LoadAfterPatients(lines, pos, st);
          pos := LoadPatientSection(lines, pos + 1, SafeStoi(line[9..], 0));
        } else if StartsWith(line, "ROOMS") {
          if |line| < 6 {
            return false;
          }
          assert LoadLine(lines, pos, st) == LoadAfterRooms(lines, pos, st);
          var n := SafeStoi(line[6..], TotalRooms);
          if n < 0 {
            return false;
          }
          LoadRoomSection(lines, pos + 1, n);
          pos := Advance(lines, pos + 1, n);
        } else {
          pos := pos + 1;
        }
      }
      ok := true;
    }
  }
}
