/**
 * The line-oriented data file: what `saveToFile` writes, and what
 * `loadFromFile` makes of a file, as the code reads it.
 *
 * A file is its sequence of lines. Reading past the last line yields the
 * empty string, which is what `getline` leaves in the variables involved.
 */
module Codec {
  import opened Text
  import opened Billing
  import opened Roster
  import opened Rooms
  import Ledger

  // ---------------------------------------------------------------------------
  // Saving

  /** `ostream << surcharge`, for the whole-number amounts the roster holds. */
  function MoneyText(x: real): string
  {
    IntToString(x.Floor)
  }

  /** `Doctor::save`. */
  function DoctorLines(d: Doctor): (r: seq<string>)
    ensures |r| == 5 + |d.specialties| && r[0] == "DOCTOR" && r[4] == IntToString(|d.specialties|)
    ensures r[5..] == d.specialties
  {
    ["DOCTOR", d.name, IntToString(d.patientCount), MoneyText(d.surcharge), IntToString(|d.specialties|)] + d.specialties
  }

  /** The type tag `Patient::save` and `EmergencyPatient::save` write first. */
  function Tag(k: Kind): string
  {
    if k == Emergency then "EMERGENCY" else "PATIENT"
  }

  predicate IsTag(s: string) { s == "PATIENT" || s == "EMERGENCY" }

  /** `Patient::save` / `EmergencyPatient::save`: six lines. */
  function PatientLines(p: Patient): (r: seq<string>)
    ensures |r| == 6
  {
    [Tag(p.kind), p.name, p.disease, p.assignedDoctor, p.severity, IntToString(p.roomNumber)]
  }

  function DoctorsBlock(ds: seq<Doctor>): seq<string>
  {
    if ds == [] then [] else DoctorLines(ds[0]) + DoctorsBlock(ds[1..])
  }

  function PatientsBlock(ps: seq<Patient>): (r: seq<string>)
    ensures |r| == 6 * |ps|
  {
    if ps == [] then [] else PatientLines(ps[0]) + PatientsBlock(ps[1..])
  }

  function FlagText(b: bool): string { if b then "1" else "0" }

  function RoomLines(rooms: seq<bool>): (r: seq<string>)
    ensures |r| == |rooms|
  {
    seq(|rooms|, i requires 0 <= i < |rooms| => FlagText(rooms[i]))
  }

  /** `saveToFile`: the doctors, patients and rooms sections, in that order. */
  function SaveLines(ds: seq<Doctor>, ps: seq<Patient>, rooms: seq<bool>): seq<string>
  {
    ["DOCTORS " + IntToString(|ds|)] + DoctorsBlock(ds) +
    ["PATIENTS " + IntToString(|ps|)] + PatientsBlock(ps) +
    ["ROOMS " + IntToString(|rooms|)] + RoomLines(rooms)
  }

  lemma {:induction false} DoctorsBlockSnoc(ds: seq<Doctor>, d: Doctor)
    ensures DoctorsBlock(ds + [d]) == DoctorsBlock(ds) + DoctorLines(d)
  {
    if ds == [] {
      assert DoctorsBlock([d][1..]) == [];
    } else {
      assert (ds + [d])[1..] == ds[1..] + [d];
      DoctorsBlockSnoc(ds[1..], d);
    }
  }

  lemma {:induction false} PatientsBlockSnoc(ps: seq<Patient>, p: Patient)
    ensures PatientsBlock(ps + [p]) == PatientsBlock(ps) + PatientLines(p)
  {
    if ps == [] {
      assert PatientsBlock([p][1..]) == [];
    } else {
      assert (ps + [p])[1..] == ps[1..] + [p];
      PatientsBlockSnoc(ps[1..], p);
    }
  }

  /** Record `k` occupies lines `6k` to `6k + 5` of the patients block, tag first. */
  lemma {:induction false} PatientsBlockAt(ps: seq<Patient>, k: nat, j: nat)
    requires k < |ps| && j < 6
    ensures PatientsBlock(ps)[6 * k + j] == PatientLines(ps[k])[j]
  {
    if k > 0 {
      PatientsBlockAt(ps[1..], k - 1, j);
    }
  }

  /** Line number of the `PATIENTS` header in a saved file. */
  function PatientsHeaderAt(ds: seq<Doctor>): nat
  {
    1 + |DoctorsBlock(ds)|
  }

  /** Line number of the `ROOMS` header in a saved file. */
  function RoomsHeaderAt(ds: seq<Doctor>, ps: seq<Patient>): nat
  {
    PatientsHeaderAt(ds) + 1 + 6 * |ps|
  }

  /** A saved file splits into its three sections. */
  lemma SaveSections(ds: seq<Doctor>, ps: seq<Patient>, rooms: seq<bool>)
    ensures SaveLines(ds, ps, rooms) ==
      (["DOCTORS " + IntToString(|ds|)] + DoctorsBlock(ds)) +
      (["PATIENTS " + IntToString(|ps|)] + PatientsBlock(ps)) +
      (["ROOMS " + IntToString(|rooms|)] + RoomLines(rooms))
  {
  }

  /**
   * Layout of a saved file: the doctors header, one block per doctor, the
   * patients header, the patient records, the rooms header, one line per room.
   */
  lemma SaveLayout(ds: seq<Doctor>, ps: seq<Patient>, rooms: seq<bool>)
    ensures |SaveLines(ds, ps, rooms)| == RoomsHeaderAt(ds, ps) + 1 + |rooms|
    ensures SaveLines(ds, ps, rooms)[0] == "DOCTORS " + IntToString(|ds|)
    ensures SaveLines(ds, ps, rooms)[1..PatientsHeaderAt(ds)] == DoctorsBlock(ds)
    ensures SaveLines(ds, ps, rooms)[PatientsHeaderAt(ds)] == "PATIENTS " + IntToString(|ps|)
    ensures SaveLines(ds, ps, rooms)[PatientsHeaderAt(ds) + 1..RoomsHeaderAt(ds, ps)] == PatientsBlock(ps)
    ensures SaveLines(ds, ps, rooms)[RoomsHeaderAt(ds, ps)] == "ROOMS " + IntToString(|rooms|)
    ensures SaveLines(ds, ps, rooms)[RoomsHeaderAt(ds, ps) + 1..] == RoomLines(rooms)
  {
    var a := ["DOCTORS " + IntToString(|ds|)] + DoctorsBlock(ds);
    var b := ["PATIENTS " + IntToString(|ps|)] + PatientsBlock(ps);
    var c := ["ROOMS " + IntToString(|rooms|)] + RoomLines(rooms);
    SaveSections(ds, ps, rooms);
    var lines := a + b + c;
    assert lines[1..|a|] == a[1..];
    assert lines[|a|..|a| + |b|] == b;
    assert lines[|a| + |b|..] == c;
  }

  /** Patient `k` of a saved file is the six lines of its record, tag first. */
  lemma SavedPatientAt(ds: seq<Doctor>, ps: seq<Patient>, rooms: seq<bool>, k: nat, j: nat)
    requires k < |ps| && j < 6
    ensures SaveLines(ds, ps, rooms)[PatientsHeaderAt(ds) + 1 + 6 * k + j] == PatientLines(ps[k])[j]
  {
    SaveLayout(ds, ps, rooms);
    PatientsBlockAt(ps, k, j);
    var lines := SaveLines(ds, ps, rooms);
    assert lines[PatientsHeaderAt(ds) + 1 + 6 * k + j] ==
      lines[PatientsHeaderAt(ds) + 1..RoomsHeaderAt(ds, ps)][6 * k + j];
  }

  // ---------------------------------------------------------------------------
  // Loading, as written

  /** The line at `pos`, or the empty string past the end. */
  function Line(lines: seq<string>, pos: nat): string
  {
    if pos < |lines| then lines[pos] else ""
  }

  /** Position after reading `k` more lines (stops at the end; nothing for `k <= 0`). */
  function Advance(lines: seq<string>, pos: nat, k: int): (r: nat)
    requires pos <= |lines|
    ensures pos <= r <= |lines|
    ensures k >= 0 && pos + k <= |lines| ==> r == pos + k
  {
    if k <= 0 then pos else if pos + k < |lines| then pos + k else |lines|
  }

  /**
   * The doctors section is skipped: per doctor one marker line (stop unless
   * it is `DOCTOR`), four more lines, the last read as the specialty count,
   * then that many lines.
   */
  function SkipDoctors(lines: seq<string>, pos: nat, n: int): (r: nat)
    requires pos <= |lines|
    ensures pos <= r <= |lines|
    decreases if n > 0 then n else 0, 1
  {
    if n <= 0 then pos
    else if Line(lines, pos) != "DOCTOR" then Advance(lines, pos, 1)
    else SkipDoctorFields(lines, pos + 1, n)
  }

  /** The rest of one doctor record, from the line after its `DOCTOR` marker, then the remaining records. */
  function SkipDoctorFields(lines: seq<string>, p: nat, n: int): (r: nat)
    requires p <= |lines| && n > 0
    ensures p <= r <= |lines|
    decreases n, 0
  {
    var numSpec := SafeStoi(Line(lines, p + 3), 0);
    SkipDoctors(lines, Advance(lines, Advance(lines, p, 4), numSpec), n - 1)
  }

  datatype LoadState = LoadState(patients: seq<Patient>, rooms: seq<bool>, doctors: seq<Doctor>)

  /**
   * `Patient::load` / `EmergencyPatient::load` started at `p`, the line after
   * the tag the loader already consumed: it reads one more "marker" line, then
   * name, disease, doctor, severity and room.
   */
  function ReadPatient(lines: seq<string>, p: nat, kind: Kind): Patient
  {
    Patient(kind, Line(lines, p + 1), Line(lines, p + 2), Line(lines, p + 3), Line(lines, p + 4),
            SafeStoi(Line(lines, p + 5), 0))
  }

  /** After a record is loaded: append it, flag its room if in range, count it for its doctor. */
  function Replay(st: LoadState, pt: Patient): LoadState
  {
    LoadState(st.patients + [pt], MarkRoom(st.rooms, pt.roomNumber, true),
              WithCountDelta(st.doctors, pt.assignedDoctor, 1))
  }

  /** The patients section: `n` records, stopping early at the end of the file. */
  function LoadPatients(lines: seq<string>, pos: nat, n: int, st: LoadState): (r: (LoadState, nat))
    requires pos <= |lines|
    ensures pos <= r.1 <= |lines|
    decreases if n > 0 then n else 0
  {
    if n <= 0 || pos >= |lines| then (st, pos)
    else
      var tag := lines[pos];
      if IsTag(tag) then
        var kind := if tag == "EMERGENCY" then Emergency else Regular;
        LoadPatients(lines, Advance(lines, pos + 1, 6), n - 1, Replay(st, ReadPatient(lines, pos + 1, kind)))
      else
        LoadPatients(lines, Advance(lines, pos + 1, 5), n - 1, st)
  }

  /** The rooms section: resize to `n`, then one flag per line while lines remain. */
  function LoadRooms(lines: seq<string>, pos: nat, n: nat, rooms: seq<bool>): (r: seq<bool>)
    ensures |r| == n
  {
    var base := Resize(rooms, n);
    seq(n, i requires 0 <= i < n => if pos + i < |lines| then lines[pos + i] == "1" else base[i])
  }

  /** `ok` is false where the code throws out of the loader (`substr` past the end, `resize` of a negative count). */
  datatype LoadResult = LoadResult(ok: bool, state: LoadState)

  /** The outer `while (getline(in, line))` loop, from line `pos`. */
  function LoadFrom(lines: seq<string>, pos: nat, st: LoadState): LoadResult
    requires pos <= |lines|
    decreases |lines| - pos, 2
  {
    if pos == |lines| then LoadResult(true, st) else LoadLine(lines, pos, st)
  }

  /** One pass of that loop: the section header (or other line) at `pos` and what follows it. */
  function LoadLine(lines: seq<string>, pos: nat, st: LoadState): LoadResult
    requires pos < |lines|
    decreases |lines| - pos, 1
  {
    var line := lines[pos];
    if StartsWith(line, "DOCTORS") then
      if |line| < 8 then LoadResult(false, st) else LoadAfterDoctors(lines, pos, st)
    else if StartsWith(line, "PATIENTS") then
      if |line| < 9 then LoadResult(false, st) else LoadAfterPatients(lines, pos, st)
    else if StartsWith(line, "ROOMS") then
      if |line| < 6 then LoadResult(false, st) else LoadAfterRooms(lines, pos, st)
    else LoadFrom(lines, pos + 1, st)
  }

  /** A `DOCTORS n` header: the records are skipped, the roster is kept. */
  function LoadAfterDoctors(lines: seq<string>, pos: nat, st: LoadState): LoadResult
    requires pos < |lines| && |lines[pos]| >= 8
    decreases |lines| - pos, 0
  {
    LoadFrom(lines, SkipDoctors(lines, pos + 1, SafeStoi(lines[pos][8..], 0)), st)
  }

  /** A `PATIENTS n` header: up to `n` records are read, then the loop goes on where they end. */
  function LoadAfterPatients(lines: seq<string>, pos: nat, st: LoadState): LoadResult
    requires pos < |lines| && |lines[pos]| >= 9
    decreases |lines| - pos, 0
  {
    var r := LoadPatients(lines, pos + 1, SafeStoi(lines[pos][9..], 0), st);
    LoadFrom(lines, r.1, r.0)
  }

  /** A `ROOMS n` header: a negative count throws; otherwise the vector is resized and `n` flags are read. */
  function LoadAfterRooms(lines: seq<string>, pos: nat, st: LoadState): LoadResult
    requires pos < |lines| && |lines[pos]| >= 6
    decreases |lines| - pos, 0
  {
    var n := SafeStoi(lines[pos][6..], TotalRooms);
    if n < 0 then LoadResult(false, st)
    else LoadFrom(lines, Advance(lines, pos + 1, n), st.(rooms := LoadRooms(lines, pos + 1, n, st.rooms)))
  }

  /** `loadFromFile` on an opened file: the ledger is cleared, the roster and the rooms are kept. */
  function LoadFile(lines: seq<string>, doctors: seq<Doctor>, rooms: seq<bool>): LoadResult
  {
    LoadFrom(lines, 0, LoadState([], rooms, doctors))
  }

  // ---------------------------------------------------------------------------
  // Doctor counts after any load

  /** The roster has distinct names and each count is the number of loaded patients with that doctor's name. */
  ghost predicate CountsDerived(st: LoadState)
  {
    DistinctNames(st.doctors) && Ledger.CountsMatch(st.patients, st.doctors)
  }

  /** Replaying one record keeps the counts derived from the patients. */
  lemma ReplayKeepsCounts(st: LoadState, pt: Patient)
    requires CountsDerived(st)
    ensures CountsDerived(Replay(st, pt))
  {
    Ledger.AdmitKeepsCounts(st.patients, st.doctors, pt);
    Ledger.WithCountDeltaKeepsNames(st.doctors, pt.assignedDoctor, 1);
  }

  /** The patients loop keeps the counts derived from the patients. */
  lemma {:induction false} PatientsKeepCounts(lines: seq<string>, pos: nat, n: int, st: LoadState)
    requires pos <= |lines| && CountsDerived(st)
    ensures CountsDerived(LoadPatients(lines, pos, n, st).0)
    decreases if n > 0 then n else 0
  {
    if n > 0 && pos < |lines| {
      var tag := lines[pos];
      if IsTag(tag) {
        var kind := if tag == "EMERGENCY" then Emergency else Regular;
        var pt := ReadPatient(lines, pos + 1, kind);
        ReplayKeepsCounts(st, pt);
        PatientsKeepCounts(lines, Advance(lines, pos + 1, 6), n - 1, Replay(st, pt));
      } else {
        PatientsKeepCounts(lines, Advance(lines, pos + 1, 5), n - 1, st);
      }
    }
  }

  /** The outer loop keeps the counts derived from the patients, whatever the lines. */
  lemma {:induction false} FromKeepsCounts(lines: seq<string>, pos: nat, st: LoadState)
    requires pos <= |lines| && CountsDerived(st)
    ensures CountsDerived(LoadFrom(lines, pos, st).state)
    decreases |lines| - pos, 2
  {
    if pos < |lines| {
      LineKeepsCounts(lines, pos, st);
    }
  }

  /** One pass of the outer loop keeps the counts derived from the patients. */
  lemma {:induction false} LineKeepsCounts(lines: seq<string>, pos: nat, st: LoadState)
    requires pos < |lines| && CountsDerived(st)
    ensures CountsDerived(LoadLine(lines, pos, st).state)
    decreases |lines| - pos, 1
  {
    var line := lines[pos];
    if StartsWith(line, "DOCTORS") {
      if |line| >= 8 {
        FromKeepsCounts(lines, SkipDoctors(lines, pos + 1, SafeStoi(line[8..], 0)), st);
      }
    } else if StartsWith(line, "PATIENTS") {
      if |line| >= 9 {
        var r := LoadPatients(lines, pos + 1, SafeStoi(line[9..], 0), st);
        PatientsKeepCounts(lines, pos + 1, SafeStoi(line[9..], 0), st);
        FromKeepsCounts(lines, r.1, r.0);
      }
    } else if StartsWith(line, "ROOMS") {
      if |line| >= 6 {
        var n := SafeStoi(line[6..], TotalRooms);
        if n >= 0 {
          FromKeepsCounts(lines, Advance(lines, pos + 1, n), st.(rooms := LoadRooms(lines, pos + 1, n, st.rooms)));
        }
      }
    } else {
      FromKeepsCounts(lines, pos + 1, st);
    }
  }

  /**
   * Loading any file into a roster with distinct names and zero counts, as
   * the constructor builds it, leaves each doctor's count equal to the number
   * of loaded patients assigned to that doctor, whether or not the load ends
   * early.
   */
  lemma LoadDerivesCounts(lines: seq<string>, ds0: seq<Doctor>, r0: seq<bool>)
    requires DistinctNames(ds0) && forall d :: 0 <= d < |ds0| ==> ds0[d].patientCount == 0
    ensures var st := LoadFile(lines, ds0, r0).state;
      DistinctNames(st.doctors) && Ledger.CountsMatch(st.patients, st.doctors)
  {
    FromKeepsCounts(lines, 0, LoadState([], r0, ds0));
  }

  // ---------------------------------------------------------------------------
  // What loading a saved file gives

  /** What the loader makes of a saved record whose tag it consumed twice: every field moves up one line. */
  function Shifted(p: Patient): Patient
  {
    Patient(p.kind, p.disease, p.assignedDoctor, p.severity, IntToString(p.roomNumber), 0)
  }

  /** The section headers a save writes are recognised by the loader and parsed back. */
  lemma HeadersParse(s: string)
    ensures var line := "DOCTORS " + s; StartsWith(line, "DOCTORS") && |line| >= 8 && line[8..] == s
    ensures var line := "PATIENTS " + s;
      !StartsWith(line, "DOCTORS") && StartsWith(line, "PATIENTS") && |line| >= 9 && line[9..] == s
    ensures var line := "ROOMS " + s;
      !StartsWith(line, "DOCTORS") && !StartsWith(line, "PATIENTS") && StartsWith(line, "ROOMS") &&
      |line| >= 6 && line[6..] == s
  {
    var d := "DOCTORS " + s;
    var p := "PATIENTS " + s;
    var r := "ROOMS " + s;
    assert d[..7] == "DOCTORS";
    assert p[..8] == "PATIENTS";
    assert r[..5] == "ROOMS";
    assert p[0] == 'P' && r[0] == 'R';
    assert "DOCTORS"[0] == 'D' && "PATIENTS"[0] == 'P';
  }

  /** Lines that are all room flags change nothing and end the load normally. */
  lemma {:induction false} FlagLinesIgnored(lines: seq<string>, pos: nat, st: LoadState)
    requires pos <= |lines|
    requires forall i :: pos <= i < |lines| ==> lines[i] == "0" || lines[i] == "1"
    ensures LoadFrom(lines, pos, st) == LoadResult(true, st)
    decreases |lines| - pos
  {
    if pos < |lines| {
      FlagLinesIgnored(lines, pos + 1, st);
    }
  }

  /** `block` sits in `lines` from `pos` on. */
  ghost predicate LinesAt(lines: seq<string>, pos: nat, block: seq<string>)
  {
    pos + |block| <= |lines| && forall j :: 0 <= j < |block| ==> lines[pos + j] == block[j]
  }

  /**
   * From `pos` on, `lines` holds a `DOCTOR` marker and a specialty count
   * for each doctor of `ds`, record after record; the other lines of each
   * record are not looked at.
   */
  ghost predicate DoctorMarkersAt(lines: seq<string>, pos: nat, ds: seq<Doctor>)
    decreases ds
  {
    ds == [] ||
    (pos + 5 + |ds[0].specialties| <= |lines| && lines[pos] == "DOCTOR" &&
     SafeStoi(lines[pos + 4], 0) == |ds[0].specialties| &&
     DoctorMarkersAt(lines, pos + 5 + |ds[0].specialties|, ds[1..]))
  }

  /** Lines taken by the records of `ds`. */
  function RecordsLength(ds: seq<Doctor>): nat
  {
    if ds == [] then 0 else 5 + |ds[0].specialties| + RecordsLength(ds[1..])
  }

  /** One doctor record with a readable specialty count is skipped as a whole. */
  lemma SkipOneDoctorRecord(lines: seq<string>, pos: nat, n: int, count: nat)
    requires n >= 1 && pos + 5 + count <= |lines|
    requires lines[pos] == "DOCTOR" && SafeStoi(lines[pos + 4], 0) == count
    ensures SkipDoctors(lines, pos, n) == SkipDoctors(lines, pos + 5 + count, n - 1)
  {
    assert Line(lines, pos + 4) == lines[pos + 4];
  }

  /** The doctors skip steps from marker to marker. */
  lemma {:induction false} SkipMarkedDoctors(lines: seq<string>, pos: nat, ds: seq<Doctor>)
    requires pos <= |lines| && DoctorMarkersAt(lines, pos, ds)
    ensures SkipDoctors(lines, pos, |ds|) == pos + RecordsLength(ds)
    decreases ds
  {
    if ds != [] {
      var count := |ds[0].specialties|;
      var next := pos + 5 + count;
      assert DoctorMarkersAt(lines, next, ds[1..]);
      SkipOneDoctorRecord(lines, pos, |ds|, count);
      SkipMarkedDoctors(lines, next, ds[1..]);
      assert RecordsLength(ds) == 5 + count + RecordsLength(ds[1..]);
    }
  }

  /** A doctors block in `lines` is its first record followed by the rest. */
  lemma SplitDoctorsBlock(lines: seq<string>, pos: nat, ds: seq<Doctor>)
    requires ds != [] && LinesAt(lines, pos, DoctorsBlock(ds))
    ensures |DoctorsBlock(ds)| == |DoctorLines(ds[0])| + |DoctorsBlock(ds[1..])|
    ensures LinesAt(lines, pos, DoctorLines(ds[0]))
    ensures LinesAt(lines, pos + |DoctorLines(ds[0])|, DoctorsBlock(ds[1..]))
  {
    var block := DoctorLines(ds[0]);
    var rest := DoctorsBlock(ds[1..]);
    assert DoctorsBlock(ds) == block + rest;
    forall j | 0 <= j < |block| ensures lines[pos + j] == block[j] {
      assert DoctorsBlock(ds)[j] == block[j];
    }
    forall j | 0 <= j < |rest| ensures lines[pos + |block| + j] == rest[j] {
      assert DoctorsBlock(ds)[|block| + j] == rest[j];
    }
  }

  /** A saved doctor record starts with the marker and holds its specialty count four lines on. */
  lemma SavedDoctorMarked(lines: seq<string>, pos: nat, d: Doctor)
    requires LinesAt(lines, pos, DoctorLines(d)) && |d.specialties| <= INT_MAX
    ensures lines[pos] == "DOCTOR" && SafeStoi(lines[pos + 4], 0) == |d.specialties|
  {
    var block := DoctorLines(d);
    assert lines[pos] == block[0];
    assert lines[pos + 4] == block[4];
    IntRoundTrip(|d.specialties|, 0);
  }

  /** A saved doctors block carries the markers the skip looks at. */
  lemma {:induction false} SavedDoctorsMarked(lines: seq<string>, pos: nat, ds: seq<Doctor>)
    requires LinesAt(lines, pos, DoctorsBlock(ds))
    requires forall i :: 0 <= i < |ds| ==> |ds[i].specialties| <= INT_MAX
    ensures DoctorMarkersAt(lines, pos, ds) && RecordsLength(ds) == |DoctorsBlock(ds)|
    decreases ds
  {
    if ds != [] {
      SplitDoctorsBlock(lines, pos, ds);
      SavedDoctorMarked(lines, pos, ds[0]);
      SavedDoctorsMarked(lines, pos + |DoctorLines(ds[0])|, ds[1..]);
    }
  }

  /** The doctors skip consumes exactly the lines `Doctor::save` wrote for each doctor. */
  lemma SkipSavedDoctors(lines: seq<string>, pos: nat, ds: seq<Doctor>)
    requires LinesAt(lines, pos, DoctorsBlock(ds))
    requires forall i :: 0 <= i < |ds| ==> |ds[i].specialties| <= INT_MAX
    ensures SkipDoctors(lines, pos, |ds|) == pos + |DoctorsBlock(ds)|
  {
    SavedDoctorsMarked(lines, pos, ds);
    SkipMarkedDoctors(lines, pos, ds);
  }

  /**
   * When every record position holds a line that is not a type tag, each
   * record is dropped and six lines are consumed.
   */
  lemma {:induction false} MisalignedRecordsDropped(lines: seq<string>, pos: nat, k: nat, st: LoadState)
    requires pos + 6 * k <= |lines|
    requires forall j :: 0 <= j < k ==> !IsTag(lines[pos + 6 * j])
    ensures LoadPatients(lines, pos, k, st) == (st, pos + 6 * k)
    decreases k
  {
    if k > 0 {
      assert !IsTag(lines[pos + 6 * 0]);
      forall j | 0 <= j < k - 1 ensures !IsTag(lines[pos + 6 + 6 * j]) {
        assert pos + 6 + 6 * j == pos + 6 * (j + 1);
      }
      MisalignedRecordsDropped(lines, pos + 6, k - 1, st);
    }
  }

  predicate SaveableSizes(ds: seq<Doctor>, ps: seq<Patient>, rooms: seq<bool>)
  {
    |ds| <= INT_MAX && |ps| <= INT_MAX && |rooms| <= INT_MAX &&
    forall i :: 0 <= i < |ds| ==> |ds[i].specialties| <= INT_MAX
  }

  /** Loading a saved file reaches its `PATIENTS` header with nothing changed. */
  lemma LoadReachesPatients(ds: seq<Doctor>, ps: seq<Patient>, rooms: seq<bool>, st: LoadState)
    requires SaveableSizes(ds, ps, rooms)
    ensures LoadFrom(SaveLines(ds, ps, rooms), 0, st) == LoadFrom(SaveLines(ds, ps, rooms), PatientsHeaderAt(ds), st)
  {
    SavedDoctorsSkipped(ds, ps, rooms);
    DoctorsHeaderStep(SaveLines(ds, ps, rooms), |ds|, PatientsHeaderAt(ds), st);
  }

  /** In a saved file, the doctors skip started after the `DOCTORS` header stops at the `PATIENTS` header. */
  lemma SavedDoctorsSkipped(ds: seq<Doctor>, ps: seq<Patient>, rooms: seq<bool>)
    requires SaveableSizes(ds, ps, rooms)
    ensures PatientsHeaderAt(ds) < |SaveLines(ds, ps, rooms)|
    ensures SaveLines(ds, ps, rooms)[0] == "DOCTORS " + IntToString(|ds|)
    ensures SkipDoctors(SaveLines(ds, ps, rooms), 1, |ds|) == PatientsHeaderAt(ds)
  {
    var lines := SaveLines(ds, ps, rooms);
    SaveLayout(ds, ps, rooms);
    assert LinesAt(lines, 1, DoctorsBlock(ds)) by {
      forall j | 0 <= j < |DoctorsBlock(ds)| ensures lines[1 + j] == DoctorsBlock(ds)[j] {
        assert lines[1 + j] == lines[1..PatientsHeaderAt(ds)][j];
      }
    }
    SkipSavedDoctors(lines, 1, ds);
  }

  /** A `DOCTORS` header carrying `n` hands the lines after it to the doctors skip. */
  lemma DoctorsHeaderStep(lines: seq<string>, n: nat, next: nat, st: LoadState)
    requires 0 < |lines| && n <= INT_MAX
    requires lines[0] == "DOCTORS " + IntToString(n)
    requires SkipDoctors(lines, 1, n) == next
    ensures LoadFrom(lines, 0, st) == LoadFrom(lines, next, st)
  {
    HeadersParse(IntToString(n));
    IntRoundTrip(n, 0);
    assert LoadFrom(lines, 0, st) == LoadLine(lines, 0, st) == LoadAfterDoctors(lines, 0, st);
  }

  /**
   * A saved empty ledger loads back exactly: no patients, the saved room
   * flags, and the roster the loader started with.
   */
  lemma LoadSavedEmptyLedger(ds: seq<Doctor>, rooms: seq<bool>, ds0: seq<Doctor>, r0: seq<bool>)
    requires SaveableSizes(ds, [], rooms)
    ensures LoadFile(SaveLines(ds, [], rooms), ds0, r0) == LoadResult(true, LoadState([], rooms, ds0))
  {
    var st := LoadState([], r0, ds0);
    LoadReachesPatients(ds, [], rooms, st);
    SavedEmptyPatientsStep(ds, rooms, st);
    SavedRoomsLoaded(ds, [], rooms, st);
  }

  /** An empty saved patients section takes the loader straight to the `ROOMS` header. */
  lemma SavedEmptyPatientsStep(ds: seq<Doctor>, rooms: seq<bool>, st: LoadState)
    ensures RoomsHeaderAt(ds, []) <= |SaveLines(ds, [], rooms)|
    ensures LoadFrom(SaveLines(ds, [], rooms), PatientsHeaderAt(ds), st) ==
      LoadFrom(SaveLines(ds, [], rooms), RoomsHeaderAt(ds, []), st)
  {
    var lines := SaveLines(ds, [], rooms);
    SavedPatientsHeader(ds, [], rooms);
    assert LoadPatients(lines, PatientsHeaderAt(ds) + 1, 0, st) == (st, RoomsHeaderAt(ds, []));
    assert PatientsSectionLoads(lines, PatientsHeaderAt(ds), 0, st, st, RoomsHeaderAt(ds, []));
    PatientsHeaderStep(lines, PatientsHeaderAt(ds), 0, st, st, RoomsHeaderAt(ds, []));
  }

  /** The rooms section of a saved file: its header, then one flag per room, up to the end. */
  lemma SavedRoomLines(ds: seq<Doctor>, ps: seq<Patient>, rooms: seq<bool>)
    ensures |SaveLines(ds, ps, rooms)| == RoomsHeaderAt(ds, ps) + 1 + |rooms|
    ensures SaveLines(ds, ps, rooms)[RoomsHeaderAt(ds, ps)] == "ROOMS " + IntToString(|rooms|)
    ensures forall i :: 0 <= i < |rooms| ==> SaveLines(ds, ps, rooms)[RoomsHeaderAt(ds, ps) + 1 + i] == FlagText(rooms[i])
  {
    var lines := SaveLines(ds, ps, rooms);
    var t := RoomsHeaderAt(ds, ps);
    SaveLayout(ds, ps, rooms);
    forall i | 0 <= i < |rooms| ensures lines[t + 1 + i] == FlagText(rooms[i]) {
      assert lines[t + 1 + i] == lines[t + 1..][i] == RoomLines(rooms)[i];
    }
  }

  /** Flags written one per line are read back by the rooms loop. */
  lemma FlagsReadBack(lines: seq<string>, pos: nat, rooms: seq<bool>, base: seq<bool>)
    requires pos + |rooms| <= |lines|
    requires forall i :: 0 <= i < |rooms| ==> lines[pos + i] == FlagText(rooms[i])
    ensures LoadRooms(lines, pos, |rooms|, base) == rooms
  {
    var loaded := LoadRooms(lines, pos, |rooms|, base);
    forall i | 0 <= i < |rooms| ensures loaded[i] == rooms[i] {
      assert lines[pos + i] == FlagText(rooms[i]);
    }
  }

  /** A `ROOMS` header followed by exactly its flags sets the occupancy to them and ends the load. */
  lemma RoomsSectionLoads(lines: seq<string>, t: nat, rooms: seq<bool>, st: LoadState)
    requires |lines| == t + 1 + |rooms| && |rooms| <= INT_MAX
    requires lines[t] == "ROOMS " + IntToString(|rooms|)
    requires forall i :: 0 <= i < |rooms| ==> lines[t + 1 + i] == FlagText(rooms[i])
    ensures LoadFrom(lines, t, st) == LoadResult(true, st.(rooms := rooms))
  {
    HeadersParse(IntToString(|rooms|));
    IntRoundTrip(|rooms|, TotalRooms);
    FlagsReadBack(lines, t + 1, rooms, st.rooms);
    assert LoadFrom(lines, t, st) == LoadLine(lines, t, st) == LoadAfterRooms(lines, t, st);
    assert LoadFrom(lines, |lines|, st.(rooms := rooms)) == LoadResult(true, st.(rooms := rooms));
  }

  /** The saved `ROOMS` section sets the occupancy to the saved flags and ends the load. */
  lemma SavedRoomsLoaded(ds: seq<Doctor>, ps: seq<Patient>, rooms: seq<bool>, st: LoadState)
    requires SaveableSizes(ds, ps, rooms)
    ensures RoomsHeaderAt(ds, ps) < |SaveLines(ds, ps, rooms)|
    ensures LoadFrom(SaveLines(ds, ps, rooms), RoomsHeaderAt(ds, ps), st) == LoadResult(true, st.(rooms := rooms))
  {
    SavedRoomLines(ds, ps, rooms);
    RoomsSectionLoads(SaveLines(ds, ps, rooms), RoomsHeaderAt(ds, ps), rooms, st);
  }

  /** The first saved record is read one line late: `Shifted`, with room 0. */
  lemma FirstRecordRead(ds: seq<Doctor>, ps: seq<Patient>, rooms: seq<bool>)
    requires |ps| >= 1
    ensures var lines := SaveLines(ds, ps, rooms); var h := PatientsHeaderAt(ds);
      h + 8 <= |lines| && lines[h + 1] == Tag(ps[0].kind) &&
      ReadPatient(lines, h + 2, ps[0].kind) == Shifted(ps[0])
  {
    SavedFirstRecordLines(ds, ps, rooms);
    SavedLineAfterFirstRecord(ds, ps, rooms);
    ReadShifted(SaveLines(ds, ps, rooms), PatientsHeaderAt(ds) + 1, ps[0]);
  }

  /** The six lines of the first saved record follow the `PATIENTS` header, with at least one line after them. */
  lemma SavedFirstRecordLines(ds: seq<Doctor>, ps: seq<Patient>, rooms: seq<bool>)
    requires |ps| >= 1
    ensures PatientsHeaderAt(ds) + 8 <= |SaveLines(ds, ps, rooms)|
    ensures forall j :: 0 <= j < 6 ==> SaveLines(ds, ps, rooms)[PatientsHeaderAt(ds) + 1 + j] == PatientLines(ps[0])[j]
  {
    SaveLength(ds, ps, rooms);
    forall j | 0 <= j < 6 ensures SaveLines(ds, ps, rooms)[PatientsHeaderAt(ds) + 1 + j] == PatientLines(ps[0])[j] {
      SavedPatientAt(ds, ps, rooms, 0, j);
    }
  }

  /** The line after the first saved record (the next tag or the `ROOMS` header) holds no number. */
  lemma SavedLineAfterFirstRecord(ds: seq<Doctor>, ps: seq<Patient>, rooms: seq<bool>)
    requires |ps| >= 1
    ensures PatientsHeaderAt(ds) + 8 <= |SaveLines(ds, ps, rooms)|
    ensures SafeStoi(SaveLines(ds, ps, rooms)[PatientsHeaderAt(ds) + 7], 0) == 0
  {
    var lines := SaveLines(ds, ps, rooms);
    var h := PatientsHeaderAt(ds);
    SaveLayout(ds, ps, rooms);
    if |ps| == 1 {
      assert lines[h + 7] == lines[RoomsHeaderAt(ds, ps)];
      assert lines[h + 7][0] == 'R';
    } else {
      SavedPatientAt(ds, ps, rooms, 1, 0);
      assert lines[h + 7] == Tag(ps[1].kind);
      assert lines[h + 7][0] == 'P' || lines[h + 7][0] == 'E';
    }
    NoDigitGivesDefault(lines[h + 7], 0);
  }

  /** Reading a record one line late: each field takes the next line's text and the room the line after the record. */
  lemma ReadShifted(lines: seq<string>, q: nat, p: Patient)
    requires q + 7 <= |lines|
    requires forall j :: 0 <= j < 6 ==> lines[q + j] == PatientLines(p)[j]
    requires SafeStoi(lines[q + 6], 0) == 0
    ensures lines[q] == Tag(p.kind)
    ensures ReadPatient(lines, q + 1, p.kind) == Shifted(p)
  {
    assert lines[q] == PatientLines(p)[0];
    assert lines[q + 2] == PatientLines(p)[2] && lines[q + 3] == PatientLines(p)[3];
    assert lines[q + 4] == PatientLines(p)[4] && lines[q + 5] == PatientLines(p)[5];
  }

  /** A `PATIENTS` header carrying `n` hands the following lines to the patients loop. */
  lemma PatientsHeaderStep(lines: seq<string>, h: nat, n: nat, st: LoadState, st1: LoadState, next: nat)
    requires PatientsSectionLoads(lines, h, n, st, st1, next)
    ensures next <= |lines| && LoadFrom(lines, h, st) == LoadFrom(lines, next, st1)
  {
    HeadersParse(IntToString(n));
    IntRoundTrip(n, 0);
    assert LoadFrom(lines, h, st) == LoadLine(lines, h, st) == LoadAfterPatients(lines, h, st);
  }

  /** Line `h` is the header `PATIENTS n`, and the patients loop after it yields `st1` and stops at `next`. */
  ghost predicate PatientsSectionLoads(lines: seq<string>, h: nat, n: nat, st: LoadState, st1: LoadState, next: nat)
  {
    h < |lines| && n <= INT_MAX && lines[h] == "PATIENTS " + IntToString(n) &&
    LoadPatients(lines, h + 1, n, st) == (st1, next)
  }

  /**
   * A tagged first record followed by records whose first lines are not tags:
   * the first is read from the line after its tag, the others are dropped.
   */
  lemma FirstRecordOnly(lines: seq<string>, pos: nat, k: nat, st: LoadState, kind: Kind)
    requires k >= 1 && pos + 6 * k + 1 <= |lines|
    requires lines[pos] == Tag(kind)
    requires forall j :: 0 <= j < k - 1 ==> !IsTag(lines[pos + 7 + 6 * j])
    ensures LoadPatients(lines, pos, k, st) == (Replay(st, ReadPatient(lines, pos + 1, kind)), pos + 6 * k + 1)
  {
    TaggedRecordStep(lines, pos, k, st, kind);
    MisalignedRecordsDropped(lines, pos + 7, k - 1, Replay(st, ReadPatient(lines, pos + 1, kind)));
  }

  /** A record under a tag is read from the line after the tag, and the loop goes on seven lines further. */
  lemma TaggedRecordStep(lines: seq<string>, pos: nat, k: nat, st: LoadState, kind: Kind)
    requires k >= 1 && pos + 7 <= |lines|
    requires lines[pos] == Tag(kind)
    ensures LoadPatients(lines, pos, k, st) == LoadPatients(lines, pos + 7, k - 1, Replay(st, ReadPatient(lines, pos + 1, kind)))
  {
    assert (lines[pos] == "EMERGENCY") == (kind == Emergency);
  }

  /** The length clause of `SaveLayout` alone, for proofs that need no more of the layout. */
  lemma SaveLength(ds: seq<Doctor>, ps: seq<Patient>, rooms: seq<bool>)
    ensures |SaveLines(ds, ps, rooms)| == RoomsHeaderAt(ds, ps) + 1 + |rooms|
  {
    SaveLayout(ds, ps, rooms);
  }

  /** In a saved file, the line after each later record's tag is that record's name. */
  lemma LaterNamesNotTags(ds: seq<Doctor>, ps: seq<Patient>, rooms: seq<bool>)
    requires |ps| >= 1
    requires forall k :: 1 <= k < |ps| ==> !IsTag(ps[k].name)
    ensures forall j :: 0 <= j < |ps| - 1 ==>
      !IsTag(SaveLines(ds, ps, rooms)[PatientsHeaderAt(ds) + 1 + 7 + 6 * j])
  {
    var h := PatientsHeaderAt(ds);
    forall j | 0 <= j < |ps| - 1 ensures !IsTag(SaveLines(ds, ps, rooms)[h + 1 + 7 + 6 * j]) {
      SavedPatientAt(ds, ps, rooms, j + 1, 1);
      assert h + 1 + 7 + 6 * j == h + 1 + 6 * (j + 1) + 1;
    }
  }

  /** The patients section of a saved ledger yields the shifted first record and ends after the `ROOMS` header. */
  lemma LoadSavedPatients(ds: seq<Doctor>, ps: seq<Patient>, rooms: seq<bool>, st: LoadState)
    requires |ps| >= 1
    requires forall k :: 1 <= k < |ps| ==> !IsTag(ps[k].name)
    ensures LoadPatients(SaveLines(ds, ps, rooms), PatientsHeaderAt(ds) + 1, |ps|, st) ==
      (Replay(st, Shifted(ps[0])), RoomsHeaderAt(ds, ps) + 1)
  {
    var lines := SaveLines(ds, ps, rooms);
    var h := PatientsHeaderAt(ds);
    SaveLength(ds, ps, rooms);
    FirstRecordRead(ds, ps, rooms);
    LaterNamesNotTags(ds, ps, rooms);
    FirstRecordOnly(lines, h + 1, |ps|, st, ps[0].kind);
  }

  /**
   * A saved ledger of one or more patients does not load back. The first
   * record's tag is consumed twice, so it comes back with name := saved
   * disease, disease := saved doctor, doctor := saved severity, severity :=
   * saved room text and room 0 (the next tag or the `ROOMS` header has no
   * digit). Every later record, whose name is not a tag, is dropped, the
   * `ROOMS` header is swallowed with the last one, no room flag changes, and
   * only a doctor named like the saved severity is counted.
   */
  lemma LoadSavedLedger(ds: seq<Doctor>, ps: seq<Patient>, rooms: seq<bool>, ds0: seq<Doctor>, r0: seq<bool>)
    requires SaveableSizes(ds, ps, rooms) && |ps| >= 1
    requires forall k :: 1 <= k < |ps| ==> !IsTag(ps[k].name)
    ensures LoadFile(SaveLines(ds, ps, rooms), ds0, r0) ==
      LoadResult(true, LoadState([Shifted(ps[0])], r0, WithCountDelta(ds0, ps[0].severity, 1)))
  {
    var lines := SaveLines(ds, ps, rooms);
    var st := LoadState([], r0, ds0);
    var st1 := Replay(st, Shifted(ps[0]));
    LoadSavedReachesRooms(ds, ps, rooms, st);
    SavedFlagsIgnored(ds, ps, rooms, st1);
  }

  /** Up to the line after the `ROOMS` header, a saved ledger loads as its shifted first record. */
  lemma LoadSavedReachesRooms(ds: seq<Doctor>, ps: seq<Patient>, rooms: seq<bool>, st: LoadState)
    requires SaveableSizes(ds, ps, rooms) && |ps| >= 1
    requires forall k :: 1 <= k < |ps| ==> !IsTag(ps[k].name)
    ensures RoomsHeaderAt(ds, ps) + 1 <= |SaveLines(ds, ps, rooms)|
    ensures LoadFrom(SaveLines(ds, ps, rooms), 0, st) ==
      LoadFrom(SaveLines(ds, ps, rooms), RoomsHeaderAt(ds, ps) + 1, Replay(st, Shifted(ps[0])))
  {
    LoadReachesPatients(ds, ps, rooms, st);
    SavedPatientsStep(ds, ps, rooms, st);
  }

  /** From the saved `PATIENTS` header, loading goes on after the `ROOMS` header with the shifted first record. */
  lemma SavedPatientsStep(ds: seq<Doctor>, ps: seq<Patient>, rooms: seq<bool>, st: LoadState)
    requires SaveableSizes(ds, ps, rooms) && |ps| >= 1
    requires forall k :: 1 <= k < |ps| ==> !IsTag(ps[k].name)
    ensures RoomsHeaderAt(ds, ps) + 1 <= |SaveLines(ds, ps, rooms)|
    ensures LoadFrom(SaveLines(ds, ps, rooms), PatientsHeaderAt(ds), st) ==
      LoadFrom(SaveLines(ds, ps, rooms), RoomsHeaderAt(ds, ps) + 1, Replay(st, Shifted(ps[0])))
  {
    SavedPatientsSection(ds, ps, rooms, st);
    PatientsHeaderStep(SaveLines(ds, ps, rooms), PatientsHeaderAt(ds), |ps|, st,
                       Replay(st, Shifted(ps[0])), RoomsHeaderAt(ds, ps) + 1);
  }

  lemma SavedPatientsSection(ds: seq<Doctor>, ps: seq<Patient>, rooms: seq<bool>, st: LoadState)
    requires |ps| <= INT_MAX && |ps| >= 1
    requires forall k :: 1 <= k < |ps| ==> !IsTag(ps[k].name)
    ensures PatientsSectionLoads(SaveLines(ds, ps, rooms), PatientsHeaderAt(ds), |ps|, st,
                                 Replay(st, Shifted(ps[0])), RoomsHeaderAt(ds, ps) + 1)
  {
    SavedPatientsHeader(ds, ps, rooms);
    LoadSavedPatients(ds, ps, rooms, st);
  }

  lemma SavedPatientsHeader(ds: seq<Doctor>, ps: seq<Patient>, rooms: seq<bool>)
    ensures PatientsHeaderAt(ds) < |SaveLines(ds, ps, rooms)|
    ensures SaveLines(ds, ps, rooms)[PatientsHeaderAt(ds)] == "PATIENTS " + IntToString(|ps|)
  {
    SaveLayout(ds, ps, rooms);
  }

  /** Loading from the line after the saved `ROOMS` header meets only room flags. */
  lemma SavedFlagsIgnored(ds: seq<Doctor>, ps: seq<Patient>, rooms: seq<bool>, st: LoadState)
    ensures RoomsHeaderAt(ds, ps) + 1 <= |SaveLines(ds, ps, rooms)|
    ensures LoadFrom(SaveLines(ds, ps, rooms), RoomsHeaderAt(ds, ps) + 1, st) == LoadResult(true, st)
  {
    SavedFlagLines(ds, ps, rooms);
    FlagLinesIgnored(SaveLines(ds, ps, rooms), RoomsHeaderAt(ds, ps) + 1, st);
  }

  /** After the saved `ROOMS` header every line is a flag. */
  lemma SavedFlagLines(ds: seq<Doctor>, ps: seq<Patient>, rooms: seq<bool>)
    ensures RoomsHeaderAt(ds, ps) + 1 <= |SaveLines(ds, ps, rooms)|
    ensures forall i :: RoomsHeaderAt(ds, ps) + 1 <= i < |SaveLines(ds, ps, rooms)| ==>
      SaveLines(ds, ps, rooms)[i] == "0" || SaveLines(ds, ps, rooms)[i] == "1"
  {
    SavedRoomLines(ds, ps, rooms);
    FlagTextsAreFlags(SaveLines(ds, ps, rooms), RoomsHeaderAt(ds, ps) + 1, rooms);
  }

  /** Lines holding the texts of flags are each `0` or `1`. */
  lemma FlagTextsAreFlags(lines: seq<string>, pos: nat, rooms: seq<bool>)
    requires |lines| == pos + |rooms|
    requires forall i :: 0 <= i < |rooms| ==> lines[pos + i] == FlagText(rooms[i])
    ensures forall i :: pos <= i < |lines| ==> lines[i] == "0" || lines[i] == "1"
  {
    forall i | pos <= i < |lines| ensures lines[i] == "0" || lines[i] == "1" {
      assert lines[pos + (i - pos)] == FlagText(rooms[i - pos]);
    }
  }

  /** No roster doctor has a name that is empty or does not start with `D`. */
  lemma NoDoctorCalled(ds0: seq<Doctor>, name: string)
    requires IsRoster(ds0) && (name == [] || name[0] != 'D')
    ensures FindDoctor(ds0, name) == -1
  {
    RosterNames(ds0);
    FindDoctorFacts(ds0, name);
    forall i | 0 <= i < |ds0| ensures ds0[i].name != name {
      assert ds0[i].name[0] == 'D';
    }
  }

  /** No roster doctor is named like a severity. */
  lemma SeverityNamesNoDoctor(ds0: seq<Doctor>, severity: string)
    requires IsRoster(ds0) && IsSeverity(severity)
    ensures FindDoctor(ds0, severity) == -1
  {
    NoDoctorCalled(ds0, severity);
  }

  /** No roster doctor is named like the text of a room number, which starts with `-` or a digit. */
  lemma RoomTextNamesNoDoctor(ds0: seq<Doctor>, n: int)
    requires IsRoster(ds0)
    ensures FindDoctor(ds0, IntToString(n)) == -1
  {
    var s := IntToString(n);
    if n >= 0 {
      assert IsDigit(NatToString(n)[0]);
    }
    NoDoctorCalled(ds0, s);
  }

  /**
   * When no roster doctor carries the saved severity as its name, no doctor
   * count changes: that severity is what lands in the doctor field.
   */
  lemma LoadSavedLedgerKeepsRoster(ds: seq<Doctor>, ps: seq<Patient>, rooms: seq<bool>, ds0: seq<Doctor>, r0: seq<bool>)
    requires SaveableSizes(ds, ps, rooms) && |ps| >= 1
    requires forall k :: 1 <= k < |ps| ==> !IsTag(ps[k].name)
    requires FindDoctor(ds0, ps[0].severity) == -1
    ensures LoadFile(SaveLines(ds, ps, rooms), ds0, r0) == LoadResult(true, LoadState([Shifted(ps[0])], r0, ds0))
  {
    LoadSavedLedger(ds, ps, rooms, ds0, r0);
  }
}
