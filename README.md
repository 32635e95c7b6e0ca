# Hospital ledger model

This is a Dafny model of the `Hospital` engine of a small hospital-management
console program (`code.cpp`). It covers:

- the fixed ten-doctor roster;
- the patient ledger of regular and emergency patients;
- the room-occupancy vector;
- bills and the least-cost doctor recommendation;
- admission and discharge;
- the summary report;
- the line-oriented data file.

Console input arrives as already-parsed arguments. What the program prints
is returned as values instead.

Modules, one per file:

- `Text`: `safe_stoi` as a decimal parser, and the decimal text of integers.
- `Billing`: the price tables, the `Patient` record with its kind (regular or
  emergency), and both `calculateBill` variants. Money is `real`. Every table
  value and multiplier is exact in binary, so `real` matches the doubles.
- `Roster`: the doctors of `initializeDoctors`, plus these operations on the
  roster:
  - name lookup and surcharge lookup;
  - the per-doctor count update;
  - the deduplicated disease list;
  - `recommendLeastCostDoctor`.
- `Rooms`: `findAvailableRoom` and the room-flag updates.
- `Ledger`: the ledger-level definitions and their lemmas.
  - Definitions: emergency positions, order-preserving removal, and
    per-doctor counts and revenue.
  - The invariant that ties patients, room flags and doctor counts together.
  - Lemmas showing that admission and discharge keep that invariant.
- `Codec`: the lines `saveToFile` writes, and what `loadFromFile` makes of a
  sequence of lines, as the code reads them.
- `HospitalLedger`: the class `Hospital`.
  - Fields: `doctors`, `patients` and `rooms`.
  - Methods: admissions, discharges, bills, the summary report, saving and
    loading.
  - Beside the class: the loops these methods run (the doctor-section skip,
    the summary tally, the section writers).

The loops over the roster, the ledger, the room vector and the file's
sections are methods, each proved against a function that specifies it. Two
kinds of inner loop have no method of their own:

- the specialty loop of `Doctor::save` (code.cpp:97-98) is the concatenation
  in `Codec.DoctorLines`, written out by `HospitalLedger.WriteDoctors`;
- the fixed-count line skips of the loader (code.cpp:819-823 and 847-848) are
  `Codec.Advance`.

The properties are proved about the specifying functions.

Three behaviours of the code are modelled as written.

**Emergency fallback bill.** When the disease or the severity has no price,
the regular bill is 500. The emergency bill multiplies that by 1.5 as well,
so it is 750.

**Loading a saved file does not give the ledger back.**

- The loader reads a record's type tag. `Patient::load` then reads one more
  line as its "marker", so every field of the first record moves up one line:
  - the name becomes the saved disease;
  - the disease becomes the saved doctor;
  - the doctor becomes the saved severity;
  - the severity becomes the saved room number;
  - the room comes from the next line, which parses to 0.
- The remaining records are out of step with the six-line grammar. A record
  whose first line is not a tag is skipped, so its patient is dropped.
- The `ROOMS` header is swallowed. The room flags that follow are ignored, so
  the room vector is not restored.
- The one record that is loaded counts for a "doctor" named by the saved
  severity field. After one save and load, that is a severity such as `Mild`.
  After a second cycle it is the text of a room number, because the loaded
  record carries the room text in its severity field. No roster doctor's name
  is a severity or starts with `-` or a digit, so on the roster no count
  changes (`Codec.SeverityNamesNoDoctor`, `Codec.RoomTextNamesNoDoctor`).

`Codec.LoadSavedLedger` and `Codec.LoadSavedLedgerKeepsRoster` state this
outcome exactly. `Codec.LoadSavedEmptyLedger` shows that a file with no
patients does restore the room vector.

**The loader can abort.** A section header with nothing after it makes
`substr` throw. These are the exact lines `DOCTORS`, `PATIENTS` and `ROOMS`.
A negative `ROOMS` count makes `resize` throw. The model returns `ok = false`
with the state reached so far. In the source the exception ends the program.

## Model

| member | source | states |
|---|---|---|
| Text.IntToString | code.cpp:164 | the text `ostream << int` writes: a minus sign for negative values, then decimal digits; never empty; read back by `Text.IntRoundTrip` |
| Text.SafeStoi | code.cpp:12-28 | the result is the default or a value in the 32-bit `int` range |
| Text.IntRoundTrip | code.cpp:12-28 | the decimal text of any 32-bit integer parses back to that integer, whatever the default |
| Text.NoDigitGivesDefault | code.cpp:12-28 | a line that starts with no blank, sign or digit parses to the default; this is why a patient record's room becomes 0 when the next line is a tag |
| Billing.RegularBill | code.cpp:182-193 | definition; its cases are stated in `Billing.BillCases` and `Billing.BillMonotoneInSurcharge` |
| Billing.Bill | code.cpp:240-244 | definition by kind; properties in `Billing.BillCases` and `Billing.EmergencyIsOneAndAHalfRegular` |
| Billing.BillCases | code.cpp:182-193 | a regular bill is `diseaseCost * severityMultiplier + surcharge` when both keys exist, and exactly 500 otherwise; an emergency bill is that value times 1.5 (750 when a key is missing) |
| Billing.EmergencyIsOneAndAHalfRegular | code.cpp:240-244 | an emergency patient's bill is 1.5 times the bill of the same record as a regular patient, in every case |
| Billing.HeartDiseaseEmergencyBill | code.cpp:240-244 | Heart Disease, Severe, with a 2500 surcharge, bills (5000 * 2 + 2500) * 1.5 = 18750 as an emergency |
| Billing.FluMildRegularBill | code.cpp:182-193 | Flu, Mild, with an 800 surcharge, bills 1800 |
| Billing.BillMonotoneInSurcharge | code.cpp:182-193 | for priced inputs the bill grows with the surcharge and is at least the surcharge |
| Roster.InitialRoster | code.cpp:271-289 | definition: the ten doctors in order; properties in `Roster.InitialRosterFacts` and `Roster.InitialSpecialties` |
| Roster.InitialSpecialties | code.cpp:279-288 | the fresh roster's specialties, gathered doctor by doctor, are the twenty names in roster order |
| Roster.AllSpecialtiesStep | code.cpp:402-404 | gathering one more doctor appends exactly that doctor's specialties |
| Roster.InitialRosterFacts | code.cpp:271-289 | the fresh roster has ten doctors with distinct non-empty names, zero counts and positive surcharges, and every specialty has a price |
| Roster.InitialNamesDistinct | code.cpp:279-288 | no two roster doctors share a name |
| Roster.RosterSize | code.cpp:271-289 | a roster whose counts have changed still has ten doctors |
| Roster.RosterNames | code.cpp:271-289 | changing counts keeps every name, surcharge and specialty list of the fresh roster, and keeps names distinct and non-empty |
| Roster.NameSetMembers | code.cpp:897-901 | a name is a key of the report maps from the roster exactly when some doctor has it |
| Roster.FindDoctorFacts | code.cpp:689-696 | the scan finds the first doctor with the name, and gives -1 exactly when no doctor has it |
| Roster.FindDoctorIndex | code.cpp:444-452 | the scan with `break` over the roster returns the first index with the name, or -1 |
| Roster.DoctorSurcharge | code.cpp:351-357 | the scan returning on the first name match gives the surcharge of the first doctor with the name, and 0 when no doctor has it |
| Roster.SameNamesFindAlike | code.cpp:353-355 | two rosters with the same names in the same order find the same doctor for every name |
| Roster.WithCountDelta | code.cpp:465-472 | definition; properties in `Roster.WithCountDeltaEffect` and `Roster.SurchargeIgnoresCounts` |
| Roster.SurchargeIgnoresCounts | code.cpp:351-357 | changing a doctor's patient count never changes the surcharge found for any name |
| Roster.Surcharge | code.cpp:351-357 | the surcharge of the first doctor with the name, and 0 when no doctor has it |
| Roster.WithCountDeltaEffect | code.cpp:465-472 | with distinct names, exactly the doctor with the name gains `delta` and every other entry is unchanged |
| Roster.WithCountDeltaKeepsRoster | code.cpp:465-472 | a count update leaves a roster a roster |
| Roster.AllSpecialties | code.cpp:402-404 | definition; properties in `Roster.AllSpecialtiesMembers` |
| Roster.Dedup | code.cpp:406-407 | definition; properties in `Roster.DedupFacts` and `Roster.DedupOrder` |
| Roster.DiseaseList | code.cpp:400-408 | definition; properties in `Roster.DiseaseListFacts`, `Roster.DiseaseListOrder` and `Roster.BuildDiseaseList` |
| Roster.DedupFacts | code.cpp:400-408 | deduplication keeps exactly the same members and leaves no duplicates |
| Roster.AllSpecialtiesMembers | code.cpp:401-407 | the specialties gathered from the roster are exactly those of some doctor |
| Roster.DiseaseListFacts | code.cpp:400-408 | a disease is listed exactly when some doctor treats it, and no disease is listed twice |
| Roster.DedupOrder | code.cpp:406-407 | deduplication keeps first-appearance order: wherever a later kept element occurs in the input, every earlier kept element occurs before it |
| Roster.DiseaseListOrder | code.cpp:400-408 | menu numbers follow the roster: an earlier disease on the list first appears earlier among the doctors' specialties |
| Roster.BuildDiseaseList | code.cpp:400-408 | the nested loop builds exactly `DiseaseList`: the specialties deduplicated, in first-appearance order by `Roster.DiseaseListOrder` |
| Roster.RosterDiseasesPriced | code.cpp:294-297 | every disease on the list of the roster has a price |
| Roster.RecommendedName | code.cpp:359-381 | definition; properties in `Roster.RecommendationIsLeastCost` and `Roster.RecommendLeastCostDoctor` |
| Roster.LeastCostIndex | code.cpp:359-381 | -1 exactly when no doctor is eligible; otherwise an eligible doctor whose cost is minimal and strictly below every earlier eligible doctor's, so ties go to the earliest |
| Roster.RecommendLeastCostDoctor | code.cpp:359-381 | the scan with a running minimum and a strict comparison returns the recommended name |
| Roster.RecommendationIsLeastCost | code.cpp:359-381 | with no eligible doctor the first roster doctor is recommended; otherwise an eligible doctor of least visit cost is recommended |
| Roster.RosterEligibility | code.cpp:364-370 | for a priced disease and severity, a roster doctor is eligible exactly when the disease is among their specialties |
| Roster.RecommendFluMild | code.cpp:359-381 | Flu, Mild recommends Dr. Smith (1800) over Dr. Taylor (1900) |
| Roster.RecommendHeartDiseaseSevere | code.cpp:359-381 | Heart Disease, Severe recommends Dr. Clark, the only doctor treating it |
| Roster.RecommendUnpricedFallsBack | code.cpp:359-381 | an unknown severity makes no doctor eligible and the recommendation falls back to Dr. Smith |
| Rooms.FreshRooms | code.cpp:248-249 | the vector starts with 100 free rooms |
| Rooms.FindAvailableRoom | code.cpp:251-259 | the lowest index of a free room, and -1 exactly when every room is occupied |
| Rooms.MarkRoom | code.cpp:698-702 | only the flag of room `roomNumber` changes, and only when `roomNumber - 1` is an index of the vector |
| Rooms.Resize | code.cpp:875 | resizing keeps the first flags and makes new rooms free |
| Ledger.EmergencyPositions | code.cpp:626-633 | definition; properties in `Ledger.EmergencyPositionsFacts` |
| Ledger.RemoveAt | code.cpp:706 | definition; properties in `Ledger.RemoveAtKeepsOrder` and `Ledger.RemoveAtSums` |
| Ledger.EmergencyPositionsFacts | code.cpp:626-633 | the positions are increasing, each one holds an emergency patient, and every emergency patient's position is listed |
| Ledger.EmergencyIndices | code.cpp:711-718 | the loop collects exactly the positions of the emergency patients, in order |
| Ledger.RemoveAtKeepsOrder | code.cpp:706 | erasing entry `k` keeps the entries before it, shifts the later ones down by one, and removes exactly one copy of entry `k` |
| Ledger.SumsOfConcat | code.cpp:903-910 | counts, per-doctor revenue and total revenue add up over concatenated ledgers |
| Ledger.RemoveAtSums | code.cpp:903-910 | erasing a patient lowers the total by its bill, and lowers its doctor's count by one |
| Ledger.TotalIgnoresCounts | code.cpp:903-910 | changing a doctor's patient count leaves every bill, and so the total revenue, unchanged |
| Ledger.DischargeLowersTotal | code.cpp:687-706 | erasing entry `k` and taking one off its doctor's count lowers the total revenue by exactly that patient's bill |
| Ledger.AdmitRaisesTotal | code.cpp:465-478 | appending a patient and adding one to its doctor's count raises the total revenue by exactly that patient's bill |
| Ledger.TotalSplitsByDoctor | code.cpp:903-910 | the total revenue is one doctor's revenue plus the revenue of every other patient |
| Ledger.UnassignedHasNothing | code.cpp:897-901 | a name no patient is assigned to has count 0 and revenue 0 |
| Ledger.FreshIsConsistent | code.cpp:292-301 | an empty ledger, free rooms and the fresh roster satisfy the invariant |
| Ledger.WithCountDeltaKeepsNames | code.cpp:689-696 | a count update keeps every name and keeps the names distinct |
| Ledger.AdmitKeepsRooms | code.cpp:474-478 | adding a patient in a free room and flagging that room keeps the ledger's rooms flagged and distinct |
| Ledger.AdmitKeepsAccounted | code.cpp:474-478 | after admission every occupied flag still belongs to some patient |
| Ledger.AdmitKeepsCounts | code.cpp:465-472 | incrementing the assigned doctor's count keeps each roster count equal to the number of patients assigned to that doctor |
| Ledger.AdmitKeepsConsistent | code.cpp:458-478 | an admission into a free room keeps the invariant linking patients, room flags and doctor counts |
| Ledger.DischargeKeepsHeld | code.cpp:698-706 | after erasing a patient and clearing its room, every remaining patient's room is still flagged |
| Ledger.DischargeKeepsDistinct | code.cpp:706 | erasing a patient keeps the remaining rooms distinct |
| Ledger.DischargeKeepsRooms | code.cpp:698-706 | erasing a patient and clearing its room keeps the remaining patients' rooms flagged and distinct |
| Ledger.DischargeKeepsAccounted | code.cpp:698-706 | after a discharge every occupied flag still belongs to some remaining patient |
| Ledger.DischargeKeepsCounts | code.cpp:687-696 | decrementing the discharged patient's doctor keeps every roster count equal to the number of assigned patients |
| Ledger.DischargeKeepsConsistent | code.cpp:687-706 | a discharge keeps the invariant linking patients, room flags and doctor counts |
| Codec.DoctorLines | code.cpp:90-99 | a doctor is saved as `DOCTOR`, four fields ending with the specialty count, then the specialties |
| Codec.PatientLines | code.cpp:157-165 | a patient record of either kind is six lines |
| Codec.PatientsBlock | code.cpp:780-781 | the patients section body is six lines per patient |
| Codec.RoomLines | code.cpp:785-786 | one flag line per room |
| Codec.DoctorsBlockSnoc | code.cpp:775-776 | the doctors section grows by one record per doctor |
| Codec.PatientsBlockSnoc | code.cpp:780-781 | the patients section grows by one record per patient |
| Codec.PatientsBlockAt | code.cpp:780-781 | line `6k + j` of the patients section is line `j` of record `k` |
| Codec.SaveLines | code.cpp:764-790 | definition; properties in `Codec.SaveLayout` |
| Codec.SaveLayout | code.cpp:764-790 | where each header and each section body sits in the saved lines |
| Codec.SaveLength | code.cpp:764-790 | the saved file ends with the last room flag |
| Codec.SavedPatientAt | code.cpp:157-165 | the line of each saved patient field |
| Codec.Advance | code.cpp:818-821 | reading `k` lines moves forward by `k`, or stops at the end of the file |
| Codec.SkipDoctors | code.cpp:809-822 | the doctor-section skip never moves backwards nor past the end |
| Codec.LoadPatients | code.cpp:826-866 | the patients loop never moves backwards nor past the end |
| Codec.LoadRooms | code.cpp:872-879 | after a `ROOMS n` header the vector has exactly `n` rooms |
| Codec.HeadersParse | code.cpp:809-874 | each header a save writes is recognised by the right branch, and the text after it is the count |
| Codec.FlagLinesIgnored | code.cpp:807 | lines that are not headers, such as room flags, are passed over by the outer loop |
| Codec.SkipOneDoctorRecord | code.cpp:813-821 | a record with the `DOCTOR` marker and specialty count `c` is skipped as exactly `5 + c` lines |
| Codec.SkipMarkedDoctors | code.cpp:809-822 | a run of marked doctor records is skipped as exactly the sum of their lengths |
| Codec.SavedDoctorsMarked | code.cpp:90-99 | the saved doctor records carry the marker and specialty counts the skip reads |
| Codec.SkipSavedDoctors | code.cpp:809-822 | the skip consumes exactly the lines the saved doctor records occupy |
| Codec.MisalignedRecordsDropped | code.cpp:844-849 | records whose first line is not a tag are each skipped as six lines and load nothing |
| Codec.TaggedRecordStep | code.cpp:836-866 | a tagged record is read, appended and counted, then seven lines are consumed |
| Codec.FirstRecordOnly | code.cpp:826-866 | a tagged record followed by untagged ones loads that one record only |
| Codec.ReadPatient | code.cpp:167-180 | definition: five field lines after the consumed marker, the room parsed with default 0; properties in `Codec.ReadShifted` |
| Codec.Shifted | code.cpp:167-180 | definition of a record read one line late; properties in `Codec.ReadShifted` and `Codec.LoadSavedLedger` |
| Codec.Replay | code.cpp:851-869 | definition; properties in `Codec.TaggedRecordStep` and `HospitalLedger.Hospital.LoadPatientSection` |
| Codec.ReadShifted | code.cpp:167-180 | a saved record read after its tag was consumed comes back with every field moved up one line and room 0 |
| Codec.FirstRecordRead | code.cpp:167-180 | the first saved record loads as its shifted form |
| Codec.DoctorsHeaderStep | code.cpp:809-822 | after a `DOCTORS n` header, loading continues where the skip ends |
| Codec.LoadReachesPatients | code.cpp:809-822 | loading a saved file skips its doctor section and reaches the patients header |
| Codec.PatientsHeaderStep | code.cpp:826-866 | after a `PATIENTS n` header, loading continues with the state and the position the records leave |
| Codec.LoadSavedPatients | code.cpp:826-866 | loading the patients section of a saved ledger yields the shifted first record and ends just past the swallowed `ROOMS` header |
| Codec.FlagsReadBack | code.cpp:872-879 | flag lines `1` and `0` read back as occupied and free |
| Codec.RoomsSectionLoads | code.cpp:872-879 | a saved rooms section loads as the saved vector |
| Codec.SavedRoomsLoaded | code.cpp:872-879 | when the loader reaches the saved `ROOMS` header, it restores the saved vector |
| Codec.SavedFlagsIgnored | code.cpp:807 | once the `ROOMS` header is swallowed, the flag lines change nothing |
| Codec.LoadFile | code.cpp:792-888 | definition; properties in `Codec.LoadDerivesCounts`, `Codec.LoadSavedLedger`, `Codec.LoadSavedEmptyLedger` and `HospitalLedger.Hospital.LoadFromFile` |
| Codec.LoadFrom | code.cpp:806-884 | definition of the outer line loop; properties in `Codec.FlagLinesIgnored` and the `*HeaderStep` lemmas |
| Codec.LoadLine | code.cpp:809-883 | definition of the header dispatch; properties in `Codec.HeadersParse` |
| Codec.LoadAfterDoctors | code.cpp:809-825 | definition; properties in `Codec.DoctorsHeaderStep` |
| Codec.LoadAfterPatients | code.cpp:826-871 | definition; properties in `Codec.PatientsHeaderStep` |
| Codec.LoadAfterRooms | code.cpp:872-883 | definition; properties in `Codec.RoomsSectionLoads` |
| Codec.ReplayKeepsCounts | code.cpp:851-869 | loading one record keeps every roster count equal to the number of loaded patients with that doctor's name, and keeps names distinct |
| Codec.PatientsKeepCounts | code.cpp:826-871 | the patients loop keeps every roster count equal to the number of loaded patients with that doctor's name |
| Codec.FromKeepsCounts | code.cpp:806-884 | the outer loop, from any line, keeps every roster count equal to the number of loaded patients with that doctor's name |
| Codec.LineKeepsCounts | code.cpp:809-883 | each header branch, including the aborting ones, keeps every roster count equal to the number of loaded patients with that doctor's name |
| Codec.LoadDerivesCounts | code.cpp:792-888 | loading any file into a roster with distinct names and zero counts leaves each doctor's count equal to the number of loaded patients assigned to that name |
| Codec.LoadSavedEmptyLedger | code.cpp:792-888 | a saved file with no patients loads as an empty ledger with the saved room vector and the roster unchanged |
| Codec.LoadSavedLedger | code.cpp:792-888 | a saved ledger whose later names are not tags loads as only its first record, shifted, with the room vector as it was and one count added for the doctor named by the saved severity |
| Codec.NoDoctorCalled | code.cpp:861-868 | the loader's doctor search finds no roster doctor for an empty name or one not starting with `D` |
| Codec.SeverityNamesNoDoctor | code.cpp:861-868 | the loader's doctor search finds no roster doctor named `Mild`, `Moderate` or `Severe` |
| Codec.RoomTextNamesNoDoctor | code.cpp:861-868 | the loader's doctor search finds no roster doctor named by the text of any room number |
| Codec.LoadSavedLedgerKeepsRoster | code.cpp:792-888 | when no doctor of the roster being loaded into has the saved severity as its name, loading such a saved ledger leaves every doctor count unchanged |
| HospitalLedger.ChosenDoctor | code.cpp:433-456 | a regular admission assigns the recommendation, or a typed alternate only when the answer is not `y`/`Y` |
| HospitalLedger.ChosenDoctorOnRoster | code.cpp:433-456 | the assigned doctor is always on the roster, and a known alternate is taken even when they lack the specialty |
| HospitalLedger.SkipDoctorSection | code.cpp:813-822 | the skip loop ends where the doctor-section skip ends |
| HospitalLedger.SkipDoctorRecord | code.cpp:815-821 | one record is either the stopping point or is skipped, leaving the same end |
| HospitalLedger.SumsSnoc | code.cpp:903-910 | one more patient adds its bill to the total and to its doctor, and adds one to its doctor's count |
| HospitalLedger.ZeroedReport | code.cpp:897-901 | the report maps start with one zero entry per roster name |
| HospitalLedger.CountStep | code.cpp:907 | the count map stays the per-name patient count after one increment |
| HospitalLedger.RevenueStep | code.cpp:908 | the revenue map stays the per-name revenue after one addition |
| HospitalLedger.TallyStep | code.cpp:903-910 | one pass of the tally loop keeps maps and total equal to the sums over the patients seen |
| HospitalLedger.TallyPatient | code.cpp:905-909 | one patient tallied keeps maps and total equal to the sums over the patients seen |
| HospitalLedger.Tally | code.cpp:903-910 | the loop ends with each name's count, each name's revenue and the total over all patients |
| HospitalLedger.WriteDoctors | code.cpp:775-776 | the loop writes the doctors section |
| HospitalLedger.WritePatients | code.cpp:780-781 | the loop writes the patients section |
| HospitalLedger.WriteRooms | code.cpp:785-786 | the loop writes one flag line per room |
| HospitalLedger.Hospital.constructor | code.cpp:292-301 | a fresh hospital has the roster, no patients and 100 free rooms, and satisfies the invariant |
| HospitalLedger.Hospital.AdjustCount | code.cpp:465-472 | the first doctor with the name gains `delta`; nothing else changes |
| HospitalLedger.Hospital.Admit | code.cpp:465-478 | count, room flag and ledger entry of an admission; the total revenue rises by exactly the new patient's bill |
| HospitalLedger.Hospital.AdmitInFreeRoom | code.cpp:458-478 | no free room changes nothing; otherwise the lowest free room is taken, flagged, counted for the doctor, and the patient appended |
| HospitalLedger.Hospital.AddPatient | code.cpp:383-480 | an empty name, a bad disease number or no free room each abort with nothing changed; otherwise it admits into the lowest free room, with severity defaulting to `Mild` and the doctor from the answer; keeps the invariant |
| HospitalLedger.Hospital.AddEmergencyPatient | code.cpp:482-550 | the same checks; severity defaults to `Moderate`; the recommended doctor is always assigned; keeps the invariant |
| HospitalLedger.Hospital.Discharge | code.cpp:687-706 | decrements the first matching doctor, clears the room flag only when it is in range, erases exactly entry `k` keeping order; keeps the invariant; lowers the total revenue by exactly the discharged patient's bill |
| HospitalLedger.Hospital.DischargePatient | code.cpp:670-707 | an empty ledger or an out-of-range choice changes nothing; otherwise entry `choice` is discharged and the total revenue drops by its bill |
| HospitalLedger.Hospital.DischargeEmergencyPatient | code.cpp:709-762 | the choice is translated through the emergency positions; no emergency patient or a bad choice changes nothing; otherwise that emergency patient is discharged and the total revenue drops by its bill |
| HospitalLedger.Hospital.GenerateBill | code.cpp:593-622 | the chosen patient, their doctor's surcharge found by the roster scan, and their bill; an empty ledger or a bad choice gives none |
| HospitalLedger.Hospital.GenerateEmergencyBill | code.cpp:624-668 | the same for the chosen emergency patient, through the emergency positions |
| HospitalLedger.Hospital.SummaryReport | code.cpp:890-920 | maps keyed by the roster and the assigned names, holding each name's patient count and revenue, and the total over all patients (doctors not on the roster included); under the invariant each roster doctor's count equals the reported count |
| HospitalLedger.Hospital.SaveToFile | code.cpp:764-790 | the written lines are the three sections of the current state |
| HospitalLedger.Hospital.LoadPatientSection | code.cpp:826-866 | the patients loop reaches the state and position of the loader's patients section, and keeps the roster |
| HospitalLedger.Hospital.LoadRoomSection | code.cpp:872-879 | the rooms loop resizes and reads the flags as the loader's rooms section does, changing nothing else |
| HospitalLedger.Hospital.LoadFromFile | code.cpp:792-888 | clears the ledger and leaves exactly the state, and the success flag, of the loader over the lines; starting from distinct names and zero counts, each count ends equal to the number of loaded patients assigned to that name |

## Left out

- The menu loop in `main`, every prompt, `cin.ignore`, and all printing. The `show*` listings and `display` are part of this. Inputs are method arguments; bills and the report are returned as values.
- Opening, closing and failing to open the data file. A file is its `seq<string>` of lines. Reading past the last line gives the empty string.
- The constructor's own call to `loadFromFile`. `Hospital.constructor` builds the fresh state, and `LoadFromFile` is a separate call.
- `safe_stod` and `Doctor::load` are not part of this model. The loader never calls them, because it skips the doctor section.
- Text.SafeStoi: models `std::stoi` as leading blanks, an optional sign and decimal digits, falling back to the default outside the 32-bit range or without a digit. Other `std::stoi` behaviour is left out; its contract states only the range, and the parsing facts the loader needs are separate lemmas.
- How a `double` surcharge is printed. Saved surcharges are written as whole numbers, which is what the roster holds. The loader never reads that line back.
- IEEE rounding. Money is exact `real`.
- The 32-bit width of patient counts and room numbers. Counts change by one per admission or discharge and never come near the limit.
- `new`/`delete`, virtual dispatch and `dynamic_cast`. These become the patient's kind tag.
- The global `rooms` vector is a field of `Hospital`. Only the single `Hospital` object uses it.
- An exception thrown by the loader ends the program in the source. The model returns `ok = false`, and the state loaded so far stays.
