/** The draft calculation both builders keep (src/hooks/useOwner.js and
    src/CreateOwnerDrawer.jsx): a list of draft units keyed by truck id, the set of selected
    truck ids, the ids whose driver lookup is in flight, and the operations the two share
    word for word: remove, field update, status update, reset, and payload construction. */
module Draft {
  import opened Js
  import opened Records

  /** A draft unit's lookup status: `loading → fetched | manual`. */
  datatype Status = Loading | Fetched | Manual

  /** One driver of a multi-driver unit, with the amount and statement found for them. */
  datatype DraftDriver = DraftDriver(id: Option<int>, fullName: string, amount: NumText, statementId: Option<int>)

  /** A draft unit. `totalAmount` is the amount field of the hook, `amount` the one of the
      create drawer; the other builder leaves its field "". */
  datatype DraftUnit = DraftUnit(
    truckId: int, unitNumber: string, vin: string,
    driverId: Option<int>, driverName: string, drivers: seq<DraftDriver>,
    totalAmount: NumText, amount: NumText, escrow: NumText,
    note: string, status: Status, company: string,
    pdf: Option<string>, statementId: Option<int>)

  /** The builder's state. Dates are "" when not picked. */
  datatype DraftState = DraftState(
    owner: string, startDate: string, endDate: string,
    selected: set<int>, units: seq<DraftUnit>, loadingDrivers: set<int>)

  function TruckIds(units: seq<DraftUnit>): set<int> {
    set i | 0 <= i < |units| :: units[i].truckId
  }

  predicate DistinctTrucks(units: seq<DraftUnit>) {
    forall i, j :: 0 <= i < j < |units| ==> units[i].truckId != units[j].truckId
  }

  /** The builder invariant: the selection is exactly the draft's truck ids, and no truck is
      drafted twice. */
  predicate Consistent(st: DraftState) {
    st.selected == TruckIds(st.units) && DistinctTrucks(st.units)
  }

  predicate DatesSet(st: DraftState) {
    st.startDate != "" && st.endDate != ""
  }

  /** Some unit is still loading, or its driver lookup is in flight. */
  predicate Pending(st: DraftState) {
    exists i :: 0 <= i < |st.units| && (st.units[i].status == Loading || st.units[i].truckId in st.loadingDrivers)
  }

  /** `resetForm`, and the state after a successful save: nothing selected, nothing drafted. */
  function Reset(): (r: DraftState)
    ensures Consistent(r) && !Pending(r) && !DatesSet(r) && r.owner == ""
  {
    DraftState("", "", "", {}, [], {})
  }

  /** Owner change (the hook's effect on `selectedOwner`): the draft is cleared and the
      new owner and the dates are kept. */
  function ClearDraft(st: DraftState): (r: DraftState)
    ensures Consistent(r) && !Pending(r)
    ensures r.owner == st.owner && r.startDate == st.startDate && r.endDate == st.endDate
    ensures r.units == [] && r.selected == {}
  {
    st.(selected := {}, units := [], loadingDrivers := {})
  }

  /** Appending a unit for an unselected truck keeps the builder invariant. */
  lemma AppendKeepsConsistent(st: DraftState, u: DraftUnit)
    requires Consistent(st) && u.truckId !in st.selected
    ensures Consistent(st.(selected := st.selected + {u.truckId}, units := st.units + [u]))
  {
    var units := st.units + [u];
    assert TruckIds(units) == TruckIds(st.units) + {u.truckId} by {
      forall x | x in TruckIds(units) ensures x in TruckIds(st.units) + {u.truckId} {
        var i :| 0 <= i < |units| && units[i].truckId == x;
        if i < |st.units| {
          assert st.units[i].truckId == x;
        }
      }
      forall x | x in TruckIds(st.units) ensures x in TruckIds(units) {
        var i :| 0 <= i < |st.units| && st.units[i].truckId == x;
        assert units[i].truckId == x;
      }
      assert units[|st.units|].truckId == u.truckId;
    }
    forall i, j | 0 <= i < j < |units| ensures units[i].truckId != units[j].truckId {
      if j == |st.units| {
        assert units[i] == st.units[i];
        assert st.units[i].truckId in TruckIds(st.units);
      }
    }
  }

  // ---------------------------------------------------------------------------
  // removeTruck
  // ---------------------------------------------------------------------------

  /** `prev.filter(d => d.truckId !== truckId)`. */
  function RemoveUnits(units: seq<DraftUnit>, id: int): (r: seq<DraftUnit>)
    ensures |r| <= |units|
    ensures forall u :: u in r <==> u in units && u.truckId != id
    ensures DistinctTrucks(units) ==> DistinctTrucks(r)
    ensures TruckIds(r) == TruckIds(units) - {id}
  {
    if |units| == 0 then []
    else
      var rest := RemoveUnits(units[1..], id);
      assert units == [units[0]] + units[1..];
      assert forall u :: u in units <==> u == units[0] || u in units[1..];
      TruckIdsCons(units[0], units[1..]);
      assert DistinctTrucks(units) ==> DistinctTrucks(units[1..]) by {
        if DistinctTrucks(units) { TailDistinct(units); }
      }
      if units[0].truckId == id then rest
      else
        var r := [units[0]] + rest;
        TruckIdsCons(units[0], rest);
        assert DistinctTrucks(units) ==> DistinctTrucks(r) by {
          if DistinctTrucks(units) {
            HeadNotInTail(units);
            ConsDistinctTrucks(units[0], rest);
          }
        }
        r
  }

  lemma TruckIdsCons(u: DraftUnit, rest: seq<DraftUnit>)
    ensures TruckIds([u] + rest) == {u.truckId} + TruckIds(rest)
  {
    var s := [u] + rest;
    forall x | x in TruckIds(s) ensures x in {u.truckId} + TruckIds(rest) {
      var i :| 0 <= i < |s| && s[i].truckId == x;
      if i > 0 { assert rest[i - 1].truckId == x; }
    }
    forall x | x in TruckIds(rest) ensures x in TruckIds(s) {
      var i :| 0 <= i < |rest| && rest[i].truckId == x;
      assert s[i + 1].truckId == x;
    }
    assert s[0].truckId == u.truckId;
  }

  /** Two drafts listing the same trucks position by position have the same truck set, and
      distinctness carries over. */
  lemma SameTruckIds(a: seq<DraftUnit>, b: seq<DraftUnit>)
    requires |a| == |b| && forall i :: 0 <= i < |a| ==> a[i].truckId == b[i].truckId
    ensures TruckIds(a) == TruckIds(b)
    ensures DistinctTrucks(a) ==> DistinctTrucks(b)
  {
    forall x | x in TruckIds(a) ensures x in TruckIds(b) {
      var i :| 0 <= i < |a| && a[i].truckId == x;
      assert b[i].truckId == x;
    }
    forall x | x in TruckIds(b) ensures x in TruckIds(a) {
      var i :| 0 <= i < |b| && b[i].truckId == x;
      assert a[i].truckId == x;
    }
  }

  lemma HeadNotInTail(units: seq<DraftUnit>)
    requires DistinctTrucks(units) && |units| > 0
    ensures units[0].truckId !in TruckIds(units[1..])
  {
    HeadAbsentFromTail(units);
  }

  lemma ConsDistinctTrucks(u: DraftUnit, rest: seq<DraftUnit>)
    requires DistinctTrucks(rest) && u.truckId !in TruckIds(rest)
    ensures DistinctTrucks([u] + rest)
  {
    var s := [u] + rest;
    forall i, j | 0 <= i < j < |s| ensures s[i].truckId != s[j].truckId {
      assert s[j] == rest[j - 1];
      if i > 0 { assert s[i] == rest[i - 1]; }
    }
  }

  /** `removeTruck`: the id leaves the selection, that truck's units leave the draft,
      everything else stays. */
  function RemoveTruck(st: DraftState, id: int): (r: DraftState)
    ensures r.selected == st.selected - {id}
    ensures id !in TruckIds(r.units)
    ensures forall u :: u in r.units <==> u in st.units && u.truckId != id
    ensures r.owner == st.owner && r.startDate == st.startDate && r.endDate == st.endDate
    ensures r.loadingDrivers == st.loadingDrivers
    ensures Consistent(st) ==> Consistent(r)
  {
    st.(selected := st.selected - {id}, units := RemoveUnits(st.units, id))
  }

  /** Removing a drafted truck drops exactly its one unit and keeps the rest in order. */
  lemma {:induction false} RemoveAt(units: seq<DraftUnit>, k: int)
    requires DistinctTrucks(units) && 0 <= k < |units|
    ensures RemoveUnits(units, units[k].truckId) == units[..k] + units[k + 1..]
  {
    var id := units[k].truckId;
    TailDistinct(units);
    if k == 0 {
      HeadAbsentFromTail(units);
      RemoveAbsent(units[1..], id);
    } else {
      assert units[1..][k - 1] == units[k];
      RemoveAt(units[1..], k - 1);
      RemoveCons(units, id);
      SplitAround(units, k);
    }
  }

  lemma TailDistinct(units: seq<DraftUnit>)
    requires DistinctTrucks(units) && |units| > 0
    ensures DistinctTrucks(units[1..])
  {
    var tail := units[1..];
    forall i, j | 0 <= i < j < |tail| ensures tail[i].truckId != tail[j].truckId {
      assert tail[i] == units[i + 1] && tail[j] == units[j + 1];
    }
  }

  lemma HeadAbsentFromTail(units: seq<DraftUnit>)
    requires DistinctTrucks(units) && |units| > 0
    ensures forall i :: 0 <= i < |units[1..]| ==> units[1..][i].truckId != units[0].truckId
  {
    forall i | 0 <= i < |units[1..]| ensures units[1..][i].truckId != units[0].truckId {
      assert units[1..][i] == units[i + 1];
    }
  }

  lemma RemoveCons(units: seq<DraftUnit>, id: int)
    requires |units| > 0 && units[0].truckId != id
    ensures RemoveUnits(units, id) == [units[0]] + RemoveUnits(units[1..], id)
  {
  }

  lemma SplitAround(units: seq<DraftUnit>, k: int)
    requires 0 < k < |units|
    ensures [units[0]] + (units[1..][..k - 1] + units[1..][k..]) == units[..k] + units[k + 1..]
  {
    assert units[1..][..k - 1] == units[1..k];
    assert units[1..][k..] == units[k + 1..];
    assert [units[0]] + units[1..k] == units[..k];
  }

  /** Removing a truck that is not drafted changes nothing in the draft. */
  lemma {:induction false} RemoveAbsent(units: seq<DraftUnit>, id: int)
    requires forall i :: 0 <= i < |units| ==> units[i].truckId != id
    ensures RemoveUnits(units, id) == units
  {
    if |units| > 0 {
      RemoveAbsent(units[1..], id);
      assert [units[0]] + units[1..] == units;
    }
  }

  // ---------------------------------------------------------------------------
  // updateTruckData
  // ---------------------------------------------------------------------------

  /** The fields the unit forms edit. */
  datatype Field = DriverNameField | CompanyField | TotalAmountField | AmountField | EscrowField | NoteField

  /** An edit: the field and the new value the form supplies. */
  datatype Edit =
    | SetDriverName(name: string)
    | SetCompany(company: string)
    | SetTotalAmount(total: NumText)
    | SetAmount(amount: NumText)
    | SetEscrow(escrow: NumText)
    | SetNote(note: string)

  function FieldOf(e: Edit): Field {
    match e
    case SetDriverName(_) => DriverNameField
    case SetCompany(_) => CompanyField
    case SetTotalAmount(_) => TotalAmountField
    case SetAmount(_) => AmountField
    case SetEscrow(_) => EscrowField
    case SetNote(_) => NoteField
  }

  /** `u` and `v` agree on every field except possibly `f`. */
  predicate SameExcept(u: DraftUnit, v: DraftUnit, f: Field) {
    u.truckId == v.truckId && u.unitNumber == v.unitNumber && u.vin == v.vin
    && u.driverId == v.driverId && u.drivers == v.drivers && u.status == v.status
    && u.pdf == v.pdf && u.statementId == v.statementId
    && (f != DriverNameField ==> u.driverName == v.driverName)
    && (f != CompanyField ==> u.company == v.company)
    && (f != TotalAmountField ==> u.totalAmount == v.totalAmount)
    && (f != AmountField ==> u.amount == v.amount)
    && (f != EscrowField ==> u.escrow == v.escrow)
    && (f != NoteField ==> u.note == v.note)
  }

  /** The edit's value is what the unit now holds. */
  predicate Holds(v: DraftUnit, e: Edit) {
    match e
    case SetDriverName(s) => v.driverName == s
    case SetCompany(s) => v.company == s
    case SetTotalAmount(t) => v.totalAmount == t
    case SetAmount(t) => v.amount == t
    case SetEscrow(t) => v.escrow == t
    case SetNote(s) => v.note == s
  }

  /** `{ ...item, [field]: value }`. */
  function Apply(u: DraftUnit, e: Edit): (v: DraftUnit)
    ensures SameExcept(u, v, FieldOf(e)) && Holds(v, e)
  {
    match e
    case SetDriverName(s) => u.(driverName := s)
    case SetCompany(s) => u.(company := s)
    case SetTotalAmount(t) => u.(totalAmount := t)
    case SetAmount(t) => u.(amount := t)
    case SetEscrow(t) => u.(escrow := t)
    case SetNote(s) => u.(note := s)
  }

  /** `prev.map(item => item.truckId === truckId ? f(item) : item)` for an edit. */
  function UpdateUnits(units: seq<DraftUnit>, id: int, e: Edit): (r: seq<DraftUnit>)
    ensures |r| == |units|
    ensures forall i :: 0 <= i < |units| && units[i].truckId != id ==> r[i] == units[i]
    ensures forall i :: 0 <= i < |units| && units[i].truckId == id ==>
              SameExcept(units[i], r[i], FieldOf(e)) && Holds(r[i], e)
  {
    if |units| == 0 then []
    else [if units[0].truckId == id then Apply(units[0], e) else units[0]] + UpdateUnits(units[1..], id, e)
  }

  /** `updateTruckData`: only the named field of the matching unit changes. */
  function UpdateTruckData(st: DraftState, id: int, e: Edit): (r: DraftState)
    ensures r.selected == st.selected && r.loadingDrivers == st.loadingDrivers
    ensures r.owner == st.owner && r.startDate == st.startDate && r.endDate == st.endDate
    ensures |r.units| == |st.units|
    ensures forall i :: 0 <= i < |st.units| ==>
              if st.units[i].truckId == id then SameExcept(st.units[i], r.units[i], FieldOf(e)) && Holds(r.units[i], e)
              else r.units[i] == st.units[i]
    ensures Consistent(st) ==> Consistent(r)
  {
    var units := UpdateUnits(st.units, id, e);
    assert forall i :: 0 <= i < |units| ==> units[i].truckId == st.units[i].truckId;
    assert TruckIds(units) == TruckIds(st.units);
    st.(units := units)
  }

  /** `prev.map(c => c.truckId === id ? { ...c, status } : c)`. */
  function SetStatus(units: seq<DraftUnit>, id: int, s: Status): (r: seq<DraftUnit>)
    ensures |r| == |units|
    ensures forall i :: 0 <= i < |units| ==>
              r[i] == if units[i].truckId == id then units[i].(status := s) else units[i]
  {
    if |units| == 0 then []
    else [if units[0].truckId == id then units[0].(status := s) else units[0]] + SetStatus(units[1..], id, s)
  }

  /** Replaces the unit of one truck by `f` of it, leaving every other unit as it is. */
  function MapTruck(units: seq<DraftUnit>, id: int, v: DraftUnit): (r: seq<DraftUnit>)
    requires v.truckId == id
    ensures |r| == |units|
    ensures forall i :: 0 <= i < |units| ==> r[i] == if units[i].truckId == id then v else units[i]
    ensures TruckIds(r) == TruckIds(units)
  {
    if |units| == 0 then []
    else
      var rest := MapTruck(units[1..], id, v);
      var r := [if units[0].truckId == id then v else units[0]] + rest;
      assert forall i :: 0 <= i < |r| ==> r[i].truckId == units[i].truckId;
      r
  }

  /** The unit of a drafted truck. */
  function UnitOf(units: seq<DraftUnit>, id: int): (r: Option<DraftUnit>)
    ensures r.Some? ==> r.value in units && r.value.truckId == id
    ensures r.None? <==> id !in TruckIds(units)
  {
    if |units| == 0 then None
    else if units[0].truckId == id then Some(units[0])
    else
      var r := UnitOf(units[1..], id);
      assert TruckIds(units) == {units[0].truckId} + TruckIds(units[1..]) by {
        forall x | x in TruckIds(units) ensures x in {units[0].truckId} + TruckIds(units[1..]) {
          var i :| 0 <= i < |units| && units[i].truckId == x;
          if i > 0 { assert units[1..][i - 1].truckId == x; }
        }
        forall x | x in TruckIds(units[1..]) ensures x in TruckIds(units) {
          var i :| 0 <= i < |units[1..]| && units[1..][i].truckId == x;
          assert units[i + 1].truckId == x;
        }
      }
      r
  }

  // ---------------------------------------------------------------------------
  // Submit checks and payload
  // ---------------------------------------------------------------------------

  /** Why a submit stops before (or without) sending. */
  datatype SubmitError =
    | SelectOwner
    | SelectDates
    | AddUnit
    | WaitForDrivers
    | ZeroAmount(unitLabel: string)
    | NoValidUnits

  /** The checks both builders run first, in this order: owner, dates, a non-empty draft,
      nothing loading. */
  function CommonChecks(st: DraftState): (r: Option<SubmitError>)
    ensures r.None? <==> st.owner != "" && DatesSet(st) && |st.units| > 0 && !Pending(st)
    ensures r == Some(SelectOwner) <==> st.owner == ""
    ensures r == Some(SelectDates) <==> st.owner != "" && !DatesSet(st)
    ensures r == Some(AddUnit) <==> st.owner != "" && DatesSet(st) && |st.units| == 0
    ensures r == Some(WaitForDrivers) <==> st.owner != "" && DatesSet(st) && |st.units| > 0 && Pending(st)
    ensures r.Some? ==> r.value in {SelectOwner, SelectDates, AddUnit, WaitForDrivers}
  {
    if st.owner == "" then Some(SelectOwner)
    else if !DatesSet(st) then Some(SelectDates)
    else if |st.units| == 0 then Some(AddUnit)
    else if Pending(st) then Some(WaitForDrivers)
    else None
  }

  /** Which field the builder reads the amount from: the hook reads
      `totalAmount || amount || ""`, the create drawer reads `amount`. */
  datatype AmountSource = TotalThenAmount | AmountOnly

  function AmountText(u: DraftUnit, src: AmountSource): NumText {
    match src
    case TotalThenAmount => TextOr(TextOr(u.totalAmount, u.amount), Text(""))
    case AmountOnly => u.amount
  }

  /** The cleaned amount of a unit, 0 when its field is empty. */
  function AmountValue(u: DraftUnit, src: AmountSource): (r: real)
    ensures AmountText(u, src) == Text("") ==> r == 0.0
    ensures AmountText(u, src).Rendered? ==> r == AmountText(u, src).r
  {
    var t := AmountText(u, src);
    if TextTruthy(t) then CleanedValue(t) else 0.0
  }

  /** The cleaned escrow of a unit, 0 when it is empty. */
  function EscrowValue(u: DraftUnit): (r: real)
    ensures u.escrow == Text("") ==> r == 0.0
    ensures u.escrow.Rendered? ==> r == u.escrow.r
  {
    if u.escrow != Text("") then CleanedValue(u.escrow) else 0.0
  }

  /** The payload entry of one draft unit; None when its truck is not in the directory. */
  function UnitPayload(u: DraftUnit, trucks: seq<Truck>, src: AmountSource): (r: Option<WireUnit>)
    ensures r.Some? <==> FindTruck(trucks, u.truckId).Some?
    ensures r.Some? ==> r.value.truck == WireNum(u.truckId)
    ensures r.Some? ==> r.value.amount == Rendered(AmountValue(u, src))
    ensures r.Some? ==> r.value.escrow == Rendered(EscrowValue(u))
    ensures r.Some? ==> (r.value.driver.Some? <==> Trim(u.driverName) != "")
    ensures r.Some? && r.value.driver.Some? ==> r.value.driver.value == Trim(u.driverName) && IsTrimmed(r.value.driver.value)
    ensures r.Some? ==> (r.value.driverId.Some? <==> TruthyId(u.driverId))
    ensures r.Some? && r.value.driverId.Some? ==> r.value.driverId == u.driverId
    ensures r.Some? ==> (r.value.statement.Some? <==> TruthyId(u.statementId))
    ensures r.Some? && r.value.statement.Some? ==> r.value.statement.value == WireNum(u.statementId.value)
    ensures r.Some? ==> r.value.note == Trim(u.note) && IsTrimmed(r.value.note)
  {
    var truck := FindTruck(trucks, u.truckId);
    if truck.None? then None
    else
      Some(WireUnit(
        WireNum(truck.value.id),
        Rendered(AmountValue(u, src)),
        Rendered(EscrowValue(u)),
        if u.driverName != "" && Trim(u.driverName) != "" then Some(Trim(u.driverName)) else None,
        if TruthyId(u.driverId) then u.driverId else None,
        if TruthyId(u.statementId) then Some(WireNum(u.statementId.value)) else None,
        if u.note != "" && Trim(u.note) != "" then Trim(u.note) else ""))
  }

  /** `trucksData.map(...).filter(unit => unit !== null)`: one entry per draft unit whose
      truck is in the directory, in draft order. */
  function BuildPayload(units: seq<DraftUnit>, trucks: seq<Truck>, src: AmountSource): (r: seq<WireUnit>)
    ensures |r| <= |units|
  {
    if |units| == 0 then []
    else
      var rest := BuildPayload(units[1..], trucks, src);
      var p := UnitPayload(units[0], trucks, src);
      if p.Some? then [p.value] + rest else rest
  }

  /** Every payload entry is the entry of some drafted unit. */
  lemma {:induction false} PayloadSound(units: seq<DraftUnit>, trucks: seq<Truck>, src: AmountSource)
    ensures forall w :: w in BuildPayload(units, trucks, src) ==> exists u :: u in units && UnitPayload(u, trucks, src) == Some(w)
  {
    if |units| > 0 {
      PayloadSound(units[1..], trucks, src);
      PayloadCons(units, trucks, src);
      forall w | w in BuildPayload(units, trucks, src) ensures exists u :: u in units && UnitPayload(u, trucks, src) == Some(w) {
        if w !in BuildPayload(units[1..], trucks, src) {
          assert UnitPayload(units[0], trucks, src) == Some(w);
        } else {
          var u :| u in units[1..] && UnitPayload(u, trucks, src) == Some(w);
          assert u in units;
        }
      }
    }
  }

  /** Every payload entry names a drafted truck. */
  lemma PayloadTrucksIn(units: seq<DraftUnit>, trucks: seq<Truck>, src: AmountSource)
    ensures forall w :: w in BuildPayload(units, trucks, src) ==> w.truck.WireNum? && w.truck.n in TruckIds(units)
  {
    PayloadSound(units, trucks, src);
    forall w | w in BuildPayload(units, trucks, src) ensures w.truck.WireNum? && w.truck.n in TruckIds(units) {
      var u :| u in units && UnitPayload(u, trucks, src) == Some(w);
      var i :| 0 <= i < |units| && units[i] == u;
      assert units[i].truckId == w.truck.n;
    }
  }

  /** Every drafted unit whose truck is in the directory contributes its entry. */
  lemma {:induction false} PayloadComplete(units: seq<DraftUnit>, trucks: seq<Truck>, src: AmountSource)
    ensures forall u :: u in units && FindTruck(trucks, u.truckId).Some? ==> UnitPayload(u, trucks, src).value in BuildPayload(units, trucks, src)
  {
    if |units| > 0 {
      PayloadComplete(units[1..], trucks, src);
      PayloadCons(units, trucks, src);
      forall u | u in units && FindTruck(trucks, u.truckId).Some?
        ensures UnitPayload(u, trucks, src).value in BuildPayload(units, trucks, src)
      {
        if u != units[0] {
          assert u in units[1..];
        }
      }
    }
  }

  /** The payload is empty exactly when no drafted truck is in the directory. */
  lemma {:induction false} PayloadEmpty(units: seq<DraftUnit>, trucks: seq<Truck>, src: AmountSource)
    ensures |BuildPayload(units, trucks, src)| == 0 <==> forall i :: 0 <= i < |units| ==> FindTruck(trucks, units[i].truckId).None?
  {
    if |units| > 0 {
      PayloadEmpty(units[1..], trucks, src);
      PayloadCons(units, trucks, src);
      if forall i :: 0 <= i < |units[1..]| ==> FindTruck(trucks, units[1..][i].truckId).None? {
        forall i | 1 <= i < |units| ensures FindTruck(trucks, units[i].truckId).None? {
          assert units[i] == units[1..][i - 1];
        }
      } else {
        var i :| 0 <= i < |units[1..]| && FindTruck(trucks, units[1..][i].truckId).Some?;
        assert units[i + 1] == units[1..][i];
      }
    }
  }

  /** The entry one unit contributes: its payload entry, or nothing. */
  function EntryOf(u: DraftUnit, trucks: seq<Truck>, src: AmountSource): (r: seq<WireUnit>)
    ensures |r| <= 1
  {
    var p := UnitPayload(u, trucks, src);
    if p.Some? then [p.value] else []
  }

  /** A payload is the first unit's entry followed by the payload of the rest. */
  lemma PayloadHead(units: seq<DraftUnit>, trucks: seq<Truck>, src: AmountSource)
    requires |units| > 0
    ensures BuildPayload(units, trucks, src) == EntryOf(units[0], trucks, src) + BuildPayload(units[1..], trucks, src)
  {
    PayloadCons(units, trucks, src);
  }

  /** The payload keeps draft order: building over two drafts one after the other is
      building over each and concatenating. */
  lemma {:induction false} PayloadAppend(a: seq<DraftUnit>, b: seq<DraftUnit>, trucks: seq<Truck>, src: AmountSource)
    ensures BuildPayload(a + b, trucks, src) == BuildPayload(a, trucks, src) + BuildPayload(b, trucks, src)
  {
    if |a| > 0 {
      var h := EntryOf(a[0], trucks, src);
      assert (a + b)[0] == a[0];
      assert (a + b)[1..] == a[1..] + b;
      PayloadHead(a + b, trucks, src);
      PayloadHead(a, trucks, src);
      PayloadAppend(a[1..], b, trucks, src);
      assert h + (BuildPayload(a[1..], trucks, src) + BuildPayload(b, trucks, src))
          == (h + BuildPayload(a[1..], trucks, src)) + BuildPayload(b, trucks, src);
    } else {
      assert a + b == b;
    }
  }

  /** A single unit contributes exactly its entry, when it has one. */
  lemma PayloadSingle(u: DraftUnit, trucks: seq<Truck>, src: AmountSource)
    ensures BuildPayload([u], trucks, src)
              == if UnitPayload(u, trucks, src).Some? then [UnitPayload(u, trucks, src).value] else []
  {
    PayloadHead([u], trucks, src);
    assert [u][1..] == [];
  }

  /** No truck appears twice among the payload entries. */
  predicate DistinctWireTrucks(ws: seq<WireUnit>) {
    forall i, j :: 0 <= i < j < |ws| ==> ws[i].truck != ws[j].truck
  }

  /** No truck appears twice in a payload built from a consistent draft. */
  lemma {:induction false} PayloadTrucksDistinct(units: seq<DraftUnit>, trucks: seq<Truck>, src: AmountSource)
    requires DistinctTrucks(units)
    ensures DistinctWireTrucks(BuildPayload(units, trucks, src))
  {
    if |units| > 0 {
      TailDistinct(units);
      PayloadTrucksDistinct(units[1..], trucks, src);
      HeadAbsentFromTail(units);
      var rest := BuildPayload(units[1..], trucks, src);
      var p := UnitPayload(units[0], trucks, src);
      PayloadCons(units, trucks, src);
      PayloadTrucksIn(units[1..], trucks, src);
      if p.Some? {
        assert p.value.truck == WireNum(units[0].truckId);
        ConsDistinct(p.value, rest, units[1..]);
      }
    }
  }

  lemma PayloadCons(units: seq<DraftUnit>, trucks: seq<Truck>, src: AmountSource)
    requires |units| > 0
    ensures var p := UnitPayload(units[0], trucks, src);
            BuildPayload(units, trucks, src)
              == if p.Some? then [p.value] + BuildPayload(units[1..], trucks, src) else BuildPayload(units[1..], trucks, src)
  {
  }

  lemma ConsDistinct(w: WireUnit, rest: seq<WireUnit>, units: seq<DraftUnit>)
    requires DistinctWireTrucks(rest)
    requires forall v :: v in rest ==> v.truck.WireNum? && v.truck.n in TruckIds(units)
    requires w.truck.WireNum? && forall i :: 0 <= i < |units| ==> units[i].truckId != w.truck.n
    ensures DistinctWireTrucks([w] + rest)
  {
    var r := [w] + rest;
    forall i, j | 0 <= i < j < |r| ensures r[i].truck != r[j].truck {
      if i == 0 {
        assert r[j] in rest;
      } else {
        assert r[i] == rest[i - 1] && r[j] == rest[j - 1];
      }
    }
  }

  /** The body of a create request. */
  datatype CalcRequest = CalcRequest(owner: string, startDate: string, endDate: string, units: seq<WireUnit>)
}
