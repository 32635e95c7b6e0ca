/**
 * Facts about the patient ledger as a whole: the emergency sub-list,
 * per-doctor counts and revenue, removal by position, and the consistency
 * between ledger, room flags and doctor counts that admission and discharge keep.
 */
module Ledger {
  import opened Billing
  import opened Roster
  import opened Rooms

  // ---------------------------------------------------------------------------
  // Emergency sub-list

  /** Positions of the emergency patients, in ledger order. */
  function EmergencyPositions(ps: seq<Patient>): seq<int>
  {
    if ps == [] then []
    else EmergencyPositions(ps[..|ps| - 1]) + (if ps[|ps| - 1].kind == Emergency then [|ps| - 1] else [])
  }

  /** The positions are increasing, each names an emergency patient, and every emergency patient is listed. */
  lemma {:induction false} EmergencyPositionsFacts(ps: seq<Patient>)
    ensures forall i :: 0 <= i < |EmergencyPositions(ps)| ==>
      0 <= EmergencyPositions(ps)[i] < |ps| && ps[EmergencyPositions(ps)[i]].kind == Emergency
    ensures forall i, j :: 0 <= i < j < |EmergencyPositions(ps)| ==> EmergencyPositions(ps)[i] < EmergencyPositions(ps)[j]
    ensures forall k :: 0 <= k < |ps| && ps[k].kind == Emergency ==> k in EmergencyPositions(ps)
  {
    if ps != [] {
      var front := ps[..|ps| - 1];
      EmergencyPositionsFacts(front);
      forall k | 0 <= k < |ps| && ps[k].kind == Emergency ensures k in EmergencyPositions(ps) {
        if k < |ps| - 1 {
          assert front[k] == ps[k];
        }
      }
    }
  }

  /** The loop that collects `emergencyIndices` for the emergency bill and discharge. */
  method EmergencyIndices(ps: seq<Patient>) returns (idx: seq<int>)
    ensures idx == EmergencyPositions(ps)
  {
    idx := [];
    var i := 0;
    while i < |ps|
      invariant 0 <= i <= |ps|
      invariant idx == EmergencyPositions(ps[..i])
    {
      assert ps[..i + 1][..i] == ps[..i];
      if ps[i].kind == Emergency {
        idx := idx + [i];
      }
      i := i + 1;
    }
    assert ps[..i] == ps;
  }

  // ---------------------------------------------------------------------------
  // Removal

  /** `patients.erase(patients.begin() + k)`. */
  function RemoveAt(ps: seq<Patient>, k: nat): seq<Patient>
    requires k < |ps|
  {
    ps[..k] + ps[k + 1..]
  }

  /** Removal drops exactly entry `k` and keeps every other patient in order. */
  lemma RemoveAtKeepsOrder(ps: seq<Patient>, k: nat)
    requires k < |ps|
    ensures |RemoveAt(ps, k)| == |ps| - 1
    ensures forall i :: 0 <= i < k ==> RemoveAt(ps, k)[i] == ps[i]
    ensures forall i :: k <= i < |ps| - 1 ==> RemoveAt(ps, k)[i] == ps[i + 1]
    ensures multiset(RemoveAt(ps, k)) + multiset{ps[k]} == multiset(ps)
  {
    assert ps == ps[..k] + [ps[k]] + ps[k + 1..];
  }

  // ---------------------------------------------------------------------------
  // Counts and revenue

  /** How many patients are assigned to a doctor called `name`. */
  function AssignedCount(ps: seq<Patient>, name: string): nat
  {
    if ps == [] then 0
    else AssignedCount(ps[..|ps| - 1], name) + (if ps[|ps| - 1].assignedDoctor == name then 1 else 0)
  }

  /** The bill of `p`, freshly computed with its doctor's surcharge. */
  function FreshBill(p: Patient, ds: seq<Doctor>): real
  {
    Bill(p, Surcharge(ds, p.assignedDoctor))
  }

  /** Revenue from the patients assigned to a doctor called `name`. */
  function RevenueOf(ps: seq<Patient>, name: string, ds: seq<Doctor>): real
  {
    if ps == [] then 0.0
    else RevenueOf(ps[..|ps| - 1], name, ds) + (if ps[|ps| - 1].assignedDoctor == name then FreshBill(ps[|ps| - 1], ds) else 0.0)
  }

  /** Revenue from every patient, whether or not the doctor is on the roster. */
  function TotalRevenue(ps: seq<Patient>, ds: seq<Doctor>): real
  {
    if ps == [] then 0.0 else TotalRevenue(ps[..|ps| - 1], ds) + FreshBill(ps[|ps| - 1], ds)
  }

  lemma {:induction false} SumsOfConcat(a: seq<Patient>, b: seq<Patient>, name: string, ds: seq<Doctor>)
    ensures AssignedCount(a + b, name) == AssignedCount(a, name) + AssignedCount(b, name)
    ensures RevenueOf(a + b, name, ds) == RevenueOf(a, name, ds) + RevenueOf(b, name, ds)
    ensures TotalRevenue(a + b, ds) == TotalRevenue(a, ds) + TotalRevenue(b, ds)
  {
    if b == [] {
      assert a + b == a;
    } else {
      SumsOfConcat(a, b[..|b| - 1], name, ds);
      assert (a + b)[..|a + b| - 1] == a + b[..|b| - 1];
    }
  }

  /**
   * Discharging entry `k` lowers the total revenue by exactly that patient's
   * bill, and lowers the count of its doctor's name by one, no other name's.
   */
  lemma RemoveAtSums(ps: seq<Patient>, k: nat, name: string, ds: seq<Doctor>)
    requires k < |ps|
    ensures TotalRevenue(RemoveAt(ps, k), ds) == TotalRevenue(ps, ds) - FreshBill(ps[k], ds)
    ensures AssignedCount(RemoveAt(ps, k), name) ==
      AssignedCount(ps, name) - (if ps[k].assignedDoctor == name then 1 else 0)
  {
    assert ps == ps[..k] + ([ps[k]] + ps[k + 1..]);
    SumsOfConcat(ps[..k], [ps[k]] + ps[k + 1..], name, ds);
    SumsOfConcat([ps[k]], ps[k + 1..], name, ds);
    SumsOfConcat(ps[..k], ps[k + 1..], name, ds);
    assert [ps[k]][..0] == [];
  }

  /** Changing a doctor's patient count leaves every patient's bill, and so the total revenue, as it was. */
  lemma {:induction false} TotalIgnoresCounts(ps: seq<Patient>, ds: seq<Doctor>, name: string, delta: int)
    ensures TotalRevenue(ps, WithCountDelta(ds, name, delta)) == TotalRevenue(ps, ds)
  {
    if ps != [] {
      TotalIgnoresCounts(ps[..|ps| - 1], ds, name, delta);
      SurchargeIgnoresCounts(ds, name, delta, ps[|ps| - 1].assignedDoctor);
    }
  }

  /**
   * Discharging entry `k` and taking one off its doctor's count lowers the
   * total revenue by exactly that patient's bill.
   */
  lemma DischargeLowersTotal(ps: seq<Patient>, ds: seq<Doctor>, k: nat)
    requires k < |ps|
    ensures TotalRevenue(RemoveAt(ps, k), WithCountDelta(ds, ps[k].assignedDoctor, -1)) ==
      TotalRevenue(ps, ds) - FreshBill(ps[k], ds)
  {
    TotalIgnoresCounts(RemoveAt(ps, k), ds, ps[k].assignedDoctor, -1);
    RemoveAtSums(ps, k, ps[k].assignedDoctor, ds);
  }

  /** Admitting a patient and adding one to its doctor's count raises the total revenue by that patient's bill. */
  lemma AdmitRaisesTotal(ps: seq<Patient>, ds: seq<Doctor>, p: Patient)
    ensures TotalRevenue(ps + [p], WithCountDelta(ds, p.assignedDoctor, 1)) ==
      TotalRevenue(ps, ds) + FreshBill(p, ds)
  {
    TotalIgnoresCounts(ps + [p], ds, p.assignedDoctor, 1);
    assert (ps + [p])[..|ps|] == ps;
  }

  /** The total revenue is the sum of the roster doctors' revenue plus that of patients assigned elsewhere. */
  lemma {:induction false} TotalSplitsByDoctor(ps: seq<Patient>, ds: seq<Doctor>, name: string)
    ensures TotalRevenue(ps, ds) ==
      RevenueOf(ps, name, ds) + TotalRevenue(OthersThan(ps, name), ds)
  {
    if ps != [] {
      var front := ps[..|ps| - 1];
      var last := ps[|ps| - 1];
      TotalSplitsByDoctor(front, ds, name);
      SumsOfConcat(OthersThan(front, name), if last.assignedDoctor != name then [last] else [], name, ds);
      assert [last][..0] == [];
    }
  }

  /** The doctor names the patients are assigned to. */
  function AssignedNames(ps: seq<Patient>): set<string>
  {
    if ps == [] then {} else AssignedNames(ps[..|ps| - 1]) + {ps[|ps| - 1].assignedDoctor}
  }

  /** A name no patient is assigned to has no patients and no revenue. */
  lemma {:induction false} UnassignedHasNothing(ps: seq<Patient>, name: string, ds: seq<Doctor>)
    requires name !in AssignedNames(ps)
    ensures AssignedCount(ps, name) == 0 && RevenueOf(ps, name, ds) == 0.0
  {
    if ps != [] {
      UnassignedHasNothing(ps[..|ps| - 1], name, ds);
    }
  }

  /** The patients not assigned to `name`, in order. */
  function OthersThan(ps: seq<Patient>, name: string): seq<Patient>
  {
    if ps == [] then []
    else OthersThan(ps[..|ps| - 1], name) + (if ps[|ps| - 1].assignedDoctor != name then [ps[|ps| - 1]] else [])
  }

  // ---------------------------------------------------------------------------
  // Consistency of ledger, rooms and counts

  /**
   * Every patient holds a distinct room inside the vector, that room is
   * flagged, and every flagged room is held by some patient.
   */
  predicate RoomsMatch(ps: seq<Patient>, rooms: seq<bool>)
  {
    RoomsHeld(ps, rooms) && RoomsDistinct(ps) && RoomsAccounted(ps, rooms)
  }

  predicate RoomsHeld(ps: seq<Patient>, rooms: seq<bool>)
  {
    forall i :: 0 <= i < |ps| ==> 1 <= ps[i].roomNumber <= |rooms| && rooms[ps[i].roomNumber - 1]
  }

  predicate RoomsDistinct(ps: seq<Patient>)
  {
    forall i, j :: 0 <= i < j < |ps| ==> ps[i].roomNumber != ps[j].roomNumber
  }

  predicate RoomsAccounted(ps: seq<Patient>, rooms: seq<bool>)
  {
    forall r :: 0 <= r < |rooms| && rooms[r] ==> exists i :: 0 <= i < |ps| && ps[i].roomNumber == r + 1
  }

  /** Each roster doctor's count is the number of patients assigned to that name. */
  predicate CountsMatch(ps: seq<Patient>, ds: seq<Doctor>)
  {
    forall d :: 0 <= d < |ds| ==> ds[d].patientCount == AssignedCount(ps, ds[d].name)
  }

  predicate Consistent(ps: seq<Patient>, rooms: seq<bool>, ds: seq<Doctor>)
  {
    DistinctNames(ds) && RoomsMatch(ps, rooms) && CountsMatch(ps, ds)
  }

  /** A fresh hospital is consistent. */
  lemma FreshIsConsistent()
    ensures Consistent([], FreshRooms(), InitialRoster())
  {
    InitialRosterFacts();
  }

  /** Names survive a count update, so distinct names stay distinct. */
  lemma WithCountDeltaKeepsNames(ds: seq<Doctor>, name: string, delta: int)
    requires DistinctNames(ds)
    ensures DistinctNames(WithCountDelta(ds, name, delta))
    ensures forall d :: 0 <= d < |ds| ==> WithCountDelta(ds, name, delta)[d].name == ds[d].name
  {
    WithCountDeltaEffect(ds, name, delta);
  }

  lemma AdmitKeepsRooms(ps: seq<Patient>, rooms: seq<bool>, p: Patient)
    requires RoomsMatch(ps, rooms)
    requires 1 <= p.roomNumber <= |rooms| && !rooms[p.roomNumber - 1]
    ensures RoomsMatch(ps + [p], rooms[p.roomNumber - 1 := true])
  {
    var ps' := ps + [p];
    var rooms' := rooms[p.roomNumber - 1 := true];
    assert RoomsHeld(ps', rooms') by {
      forall i | 0 <= i < |ps'| ensures 1 <= ps'[i].roomNumber <= |rooms'| && rooms'[ps'[i].roomNumber - 1] {
        if i < |ps| {
          assert ps'[i] == ps[i];
        }
      }
    }
    assert RoomsDistinct(ps') by {
      forall i, j | 0 <= i < j < |ps'| ensures ps'[i].roomNumber != ps'[j].roomNumber {
        assert ps'[i] == ps[i];
        if j == |ps| {
          assert rooms[ps[i].roomNumber - 1];
        } else {
          assert ps'[j] == ps[j];
        }
      }
    }
    AdmitKeepsAccounted(ps, rooms, p);
  }

  lemma AdmitKeepsAccounted(ps: seq<Patient>, rooms: seq<bool>, p: Patient)
    requires RoomsAccounted(ps, rooms)
    requires 1 <= p.roomNumber <= |rooms|
    ensures RoomsAccounted(ps + [p], rooms[p.roomNumber - 1 := true])
  {
    var ps' := ps + [p];
    var rooms' := rooms[p.roomNumber - 1 := true];
    forall r | 0 <= r < |rooms'| && rooms'[r] ensures exists i :: 0 <= i < |ps'| && ps'[i].roomNumber == r + 1 {
      if r == p.roomNumber - 1 {
        assert ps'[|ps|].roomNumber == r + 1;
      } else {
        var i :| 0 <= i < |ps| && ps[i].roomNumber == r + 1;
        assert ps'[i] == ps[i];
      }
    }
  }

  lemma AdmitKeepsCounts(ps: seq<Patient>, ds: seq<Doctor>, p: Patient)
    requires DistinctNames(ds) && CountsMatch(ps, ds)
    ensures CountsMatch(ps + [p], WithCountDelta(ds, p.assignedDoctor, 1))
  {
    var ps' := ps + [p];
    WithCountDeltaEffect(ds, p.assignedDoctor, 1);
    assert ps'[..|ps'| - 1] == ps;
  }

  /**
   * Admission into a free room, counted against the first doctor of the
   * assigned name, keeps the ledger consistent.
   */
  lemma AdmitKeepsConsistent(ps: seq<Patient>, rooms: seq<bool>, ds: seq<Doctor>, p: Patient)
    requires Consistent(ps, rooms, ds)
    requires 1 <= p.roomNumber <= |rooms| && !rooms[p.roomNumber - 1]
    ensures Consistent(ps + [p], rooms[p.roomNumber - 1 := true], WithCountDelta(ds, p.assignedDoctor, 1))
  {
    AdmitKeepsRooms(ps, rooms, p);
    AdmitKeepsCounts(ps, ds, p);
    WithCountDeltaKeepsNames(ds, p.assignedDoctor, 1);
  }

  lemma DischargeKeepsRooms(ps: seq<Patient>, rooms: seq<bool>, k: nat)
    requires RoomsMatch(ps, rooms) && k < |ps|
    ensures RoomsMatch(RemoveAt(ps, k), MarkRoom(rooms, ps[k].roomNumber, false))
  {
    DischargeKeepsHeld(ps, rooms, k);
    DischargeKeepsDistinct(ps, k);
    DischargeKeepsAccounted(ps, rooms, k);
  }

  lemma DischargeKeepsHeld(ps: seq<Patient>, rooms: seq<bool>, k: nat)
    requires RoomsHeld(ps, rooms) && RoomsDistinct(ps) && k < |ps|
    ensures RoomsHeld(RemoveAt(ps, k), MarkRoom(rooms, ps[k].roomNumber, false))
  {
    var ps' := RemoveAt(ps, k);
    var rooms' := MarkRoom(rooms, ps[k].roomNumber, false);
    RemoveAtKeepsOrder(ps, k);
    forall i | 0 <= i < |ps'| ensures 1 <= ps'[i].roomNumber <= |rooms'| && rooms'[ps'[i].roomNumber - 1] {
      var j := if i < k then i else i + 1;
      assert ps'[i] == ps[j] && j != k;
      assert ps[j].roomNumber != ps[k].roomNumber;
    }
  }

  lemma DischargeKeepsDistinct(ps: seq<Patient>, k: nat)
    requires RoomsDistinct(ps) && k < |ps|
    ensures RoomsDistinct(RemoveAt(ps, k))
  {
    var ps' := RemoveAt(ps, k);
    RemoveAtKeepsOrder(ps, k);
    forall i, j | 0 <= i < j < |ps'| ensures ps'[i].roomNumber != ps'[j].roomNumber {
      var i0 := if i < k then i else i + 1;
      var j0 := if j < k then j else j + 1;
      assert ps'[i] == ps[i0] && ps'[j] == ps[j0] && i0 < j0;
    }
  }

  lemma DischargeKeepsAccounted(ps: seq<Patient>, rooms: seq<bool>, k: nat)
    requires RoomsAccounted(ps, rooms) && k < |ps|
    ensures RoomsAccounted(RemoveAt(ps, k), MarkRoom(rooms, ps[k].roomNumber, false))
  {
    var ps' := RemoveAt(ps, k);
    var rooms' := MarkRoom(rooms, ps[k].roomNumber, false);
    RemoveAtKeepsOrder(ps, k);
    forall r | 0 <= r < |rooms'| && rooms'[r] ensures exists i :: 0 <= i < |ps'| && ps'[i].roomNumber == r + 1 {
      var i :| 0 <= i < |ps| && ps[i].roomNumber == r + 1;
      assert i != k;
      var i' := if i < k then i else i - 1;
      assert ps'[i'] == ps[i];
    }
  }

  lemma DischargeKeepsCounts(ps: seq<Patient>, ds: seq<Doctor>, k: nat)
    requires DistinctNames(ds) && CountsMatch(ps, ds) && k < |ps|
    ensures CountsMatch(RemoveAt(ps, k), WithCountDelta(ds, ps[k].assignedDoctor, -1))
  {
    var ds' := WithCountDelta(ds, ps[k].assignedDoctor, -1);
    WithCountDeltaEffect(ds, ps[k].assignedDoctor, -1);
    forall d | 0 <= d < |ds'| ensures ds'[d].patientCount == AssignedCount(RemoveAt(ps, k), ds'[d].name) {
      RemoveAtSums(ps, k, ds[d].name, ds);
    }
  }

  /**
   * Discharging entry `k` (count decremented for its doctor's name, its room
   * freed, the entry removed) keeps the ledger consistent.
   */
  lemma DischargeKeepsConsistent(ps: seq<Patient>, rooms: seq<bool>, ds: seq<Doctor>, k: nat)
    requires Consistent(ps, rooms, ds) && k < |ps|
    ensures Consistent(RemoveAt(ps, k), MarkRoom(rooms, ps[k].roomNumber, false),
                       WithCountDelta(ds, ps[k].assignedDoctor, -1))
  {
    DischargeKeepsRooms(ps, rooms, k);
    DischargeKeepsCounts(ps, ds, k);
    WithCountDeltaKeepsNames(ds, ps[k].assignedDoctor, -1);
  }
}
