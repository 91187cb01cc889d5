/** The create drawer of src/CreateOwnerDrawer.jsx: adding a truck with its first driver,
    the single statement lookup per truck, and the submit that looks up an existing
    calculation, posts, and on an "already exists" answer merges the draft into the stored
    calculation. The dispatch at line 409 is modelled as written (`HandleSubmit`); the
    evidently intended dispatch is `HandleSubmitIntended`. */
module CreateOwner {
  import opened Js
  import opened Records
  import opened Draft
  import UseOwner

  // ---------------------------------------------------------------------------
  // addTruck and fetchDriverData
  // ---------------------------------------------------------------------------

  /** The notice `addTruck` shows. */
  datatype Notice = Silent | NeedOwner | NeedDates | AlreadyAdded | Added

  /** The driver id of a directory truck, in this order: the head of a non-empty driver
      list (whatever its id), an object driver's truthy id, a bare numeric driver, the
      truck's truthy `driver_id`; else none. */
  function DeriveDriverId(t: Truck): (r: Option<int>)
    ensures t.driver.DriverList? && |t.driver.entries| > 0 ==> r == t.driver.entries[0].id
    ensures t.driver.DriverObject? && TruthyId(t.driver.entry.id) ==> r == t.driver.entry.id
    ensures t.driver.DriverNumber? && t.driver.n != 0 ==> r == Some(t.driver.n)
    ensures (!(t.driver.DriverList? && |t.driver.entries| > 0)
             && !(t.driver.DriverObject? && TruthyId(t.driver.entry.id))
             && !(t.driver.DriverNumber? && t.driver.n != 0)) ==> r == IdOrNull(t.driverId)
  {
    match t.driver
    case DriverList(entries) => if |entries| > 0 then entries[0].id else IdOrNull(t.driverId)
    case DriverObject(e) => if TruthyId(e.id) then e.id else IdOrNull(t.driverId)
    case DriverNumber(n) => if n != 0 then Some(n) else IdOrNull(t.driverId)
    case NoDriver => IdOrNull(t.driverId)
  }

  /** The unit the drawer appends: loading, no name, empty amount, escrow and note. */
  function NewItem(t: Truck): (u: DraftUnit)
    ensures u.truckId == t.id && u.status == Loading && u.driverId == DeriveDriverId(t)
    ensures u.driverName == "" && u.amount == Text("") && u.escrow == Text("") && u.note == ""
    ensures u.company == "" && u.statementId.None? && u.drivers == []
  {
    DraftUnit(
      t.id,
      if t.unitNumber != "" then t.unitNumber else "N/A",
      if t.vin != "" then t.vin else "N/A",
      DeriveDriverId(t), "", [], Text(""), Text(""), Text(""), "", Loading, "", None, None)
  }

  datatype AddResult = AddResult(state: DraftState, notice: Notice)

  /** The synchronous part of `addTruck(pick)`, checking in this order: something picked,
      an owner, both dates, a known truck, not yet added. */
  function AddTruck(st: DraftState, trucks: seq<Truck>, pick: Option<int>): (r: AddResult)
    ensures r.notice != Added <==> r.state == st
    ensures pick.None? ==> r.notice == Silent
    ensures pick.Some? && st.owner == "" ==> r.notice == NeedOwner
    ensures pick.Some? && st.owner != "" && !DatesSet(st) ==> r.notice == NeedDates
    ensures pick.Some? && st.owner != "" && DatesSet(st) && FindTruck(trucks, pick.value).None? ==> r.notice == Silent
    ensures pick.Some? && st.owner != "" && DatesSet(st) && FindTruck(trucks, pick.value).Some? && pick.value in st.selected ==>
              r.notice == AlreadyAdded
    ensures r.notice == Added ==>
              pick.Some? && FindTruck(trucks, pick.value).Some? && pick.value !in st.selected
              && r.state.selected == st.selected + {pick.value}
              && r.state.units == st.units + [NewItem(FindTruck(trucks, pick.value).value)]
              && r.state.owner == st.owner && r.state.startDate == st.startDate && r.state.endDate == st.endDate
              && r.state.loadingDrivers == st.loadingDrivers
    ensures Consistent(st) ==> Consistent(r.state)
  {
    if pick.None? then AddResult(st, Silent)
    else if st.owner == "" then AddResult(st, NeedOwner)
    else if !DatesSet(st) then AddResult(st, NeedDates)
    else
      var t := FindTruck(trucks, pick.value);
      if t.None? then AddResult(st, Silent)
      else if t.value.id in st.selected then AddResult(st, AlreadyAdded)
      else
        var s := st.(selected := st.selected + {t.value.id}, units := st.units + [NewItem(t.value)]);
        assert |s.units| > |st.units|;
        assert Consistent(st) ==> Consistent(s) by {
          if Consistent(st) { AppendKeepsConsistent(st, NewItem(t.value)); }
        }
        AddResult(s, Added)
  }

  /** The start of `fetchDriverData`: the truck's lookup is marked in flight. */
  function BeginFetch(st: DraftState, id: int): (r: DraftState)
    ensures r.units == st.units && r.selected == st.selected
    ensures r.loadingDrivers == st.loadingDrivers + {id}
    ensures id in TruckIds(st.units) ==> Pending(r)
  {
    var r := st.(loadingDrivers := st.loadingDrivers + {id});
    assert id in TruckIds(st.units) ==> Pending(r) by {
      if id in TruckIds(st.units) {
        var i :| 0 <= i < |st.units| && st.units[i].truckId == id;
        assert r.units[i].truckId in r.loadingDrivers;
      }
    }
    r
  }

  /** A submit while a lookup is in flight is turned away. */
  lemma SubmitWaitsForLookup(st: DraftState, id: int)
    requires st.owner != "" && DatesSet(st) && id in TruckIds(st.units)
    ensures CommonChecks(BeginFetch(st, id)) == Some(WaitForDrivers)
  {
  }

  /** The unit once its statement is in: fetched, with the statement's name, company,
      amount as a string, note and id. The escrow keeps what was typed. */
  function WithStatement(u: DraftUnit, info: DriverInfo): (v: DraftUnit)
    ensures v.status == Fetched && v.truckId == u.truckId && v.driverId == u.driverId
    ensures v.driverName == info.driverName && v.company == info.companyName && v.note == info.note
    ensures v.amount == ToText(info.totalAmount) && v.statementId == info.statementId
    ensures v.escrow == u.escrow
  {
    u.(status := Fetched, driverName := info.driverName, company := info.companyName,
       amount := ToText(info.totalAmount), escrow := TextOr(u.escrow, Text("")),
       note := info.note, statementId := info.statementId)
  }

  /** The end of `fetchDriverData`: a statement in the reply makes the unit fetched, anything
      else (an empty list, null, a failure) makes it manual; the in-flight mark goes on
      every path. */
  function CompleteFetch(st: DraftState, id: int, reply: Reply): (r: DraftState)
    ensures r.loadingDrivers == st.loadingDrivers - {id}
    ensures r.selected == st.selected && |r.units| == |st.units|
    ensures forall i :: 0 <= i < |st.units| && st.units[i].truckId != id ==> r.units[i] == st.units[i]
    ensures forall i :: 0 <= i < |st.units| && st.units[i].truckId == id ==>
              r.units[i].status == (if RecordOf(reply).Some? then Fetched else Manual)
    ensures RecordOf(reply).Some? ==> forall i :: 0 <= i < |st.units| && st.units[i].truckId == id ==>
              r.units[i] == WithStatement(st.units[i], ExtractDriverInfo(RecordOf(reply).value))
    ensures Consistent(st) ==> Consistent(r)
  {
    var rec := RecordOf(reply);
    var units := if rec.Some? then FetchAll(st.units, id, ExtractDriverInfo(rec.value)) else SetStatus(st.units, id, Manual);
    assert forall i :: 0 <= i < |units| ==> units[i].truckId == st.units[i].truckId;
    assert TruckIds(units) == TruckIds(st.units);
    st.(units := units, loadingDrivers := st.loadingDrivers - {id})
  }

  function FetchAll(units: seq<DraftUnit>, id: int, info: DriverInfo): (r: seq<DraftUnit>)
    ensures |r| == |units|
    ensures forall i :: 0 <= i < |units| ==> r[i] == if units[i].truckId == id then WithStatement(units[i], info) else units[i]
  {
    if |units| == 0 then []
    else [if units[0].truckId == id then WithStatement(units[0], info) else units[0]] + FetchAll(units[1..], id, info)
  }

  /** What follows the append: a unit without a truthy driver id turns manual at once;
      otherwise its one statement lookup settles it. */
  function Settle(st: DraftState, u: DraftUnit, reply: Reply): (r: DraftState)
    ensures r.selected == st.selected && |r.units| == |st.units|
    ensures forall i :: 0 <= i < |st.units| && st.units[i].truckId == u.truckId ==>
              r.units[i].status == (if TruthyId(u.driverId) && DatesSet(st) && RecordOf(reply).Some? then Fetched else Manual)
    ensures forall i :: 0 <= i < |st.units| && st.units[i].truckId != u.truckId ==> r.units[i] == st.units[i]
    ensures TruthyId(u.driverId) && DatesSet(st) && RecordOf(reply).Some? ==>
              forall i :: 0 <= i < |st.units| && st.units[i].truckId == u.truckId ==>
                r.units[i] == WithStatement(st.units[i], ExtractDriverInfo(RecordOf(reply).value))
    ensures TruthyId(u.driverId) && DatesSet(st) ==> r.loadingDrivers == st.loadingDrivers - {u.truckId}
    ensures Consistent(st) ==> Consistent(r)
  {
    if !TruthyId(u.driverId) || !DatesSet(st) then
      var units := SetStatus(st.units, u.truckId, Manual);
      assert forall i :: 0 <= i < |units| ==> units[i].truckId == st.units[i].truckId;
      assert TruckIds(units) == TruckIds(st.units);
      st.(units := units)
    else CompleteFetch(BeginFetch(st, u.truckId), u.truckId, reply)
  }

  /** Both builders pick the same first driver for a truck: the drawer's driver id is the id
      of the first driver the hook looks up, and none exactly when the hook has no driver. */
  lemma SameFirstDriver(t: Truck)
    ensures DeriveDriverId(t) == if |UseOwner.DriversOf(t)| > 0 then UseOwner.DriversOf(t)[0].id else None
  {
  }

  // ---------------------------------------------------------------------------
  // Merge with an existing calculation
  // ---------------------------------------------------------------------------

  /** `String(eu.truck?.id || eu.truck || eu.truck_id) === String(unit.truck)`: an existing
      unit names the payload unit's truck. */
  predicate Names(eu: CalcUnit, w: WireUnit) {
    w.truck.WireNum? && TruckKeyOf(eu) == DerivedNum(w.truck.n)
  }

  /** The String comparison is key equality. */
  lemma NamesByString(eu: CalcUnit, w: WireUnit)
    requires w.truck.WireNum? && TruckKeyOf(eu).DerivedNum?
    requires IntToString(TruckKeyOf(eu).n) == IntToString(w.truck.n)
    ensures Names(eu, w)
  {
    IntToStringInjective(TruckKeyOf(eu).n, w.truck.n);
  }

  predicate Present(existing: seq<CalcUnit>, w: WireUnit) {
    exists i :: 0 <= i < |existing| && Names(existing[i], w)
  }

  /** The payload units whose truck no existing unit names, in payload order. */
  function NewUnits(payload: seq<WireUnit>, existing: seq<CalcUnit>): (r: seq<WireUnit>)
    ensures |r| <= |payload|
    ensures forall w :: w in r <==> w in payload && !Present(existing, w)
  {
    if |payload| == 0 then []
    else if Present(existing, payload[0]) then NewUnits(payload[1..], existing)
    else [payload[0]] + NewUnits(payload[1..], existing)
  }

  /** The units sent for an existing calculation: every existing unit formatted, then the
      new ones. */
  function MergeUnits(existing: seq<CalcUnit>, payload: seq<WireUnit>): (r: seq<WireUnit>)
    ensures |r| == |existing| + |NewUnits(payload, existing)|
    ensures r[..|existing|] == FormatExistingUnits(existing)
    ensures r[|existing|..] == NewUnits(payload, existing)
  {
    FormatExistingUnits(existing) + NewUnits(payload, existing)
  }

  /** No truck of the draft is lost by the merge: every payload truck is in the merged list,
      either through the existing unit naming it or as a new unit. */
  lemma MergeKeepsEveryTruck(existing: seq<CalcUnit>, payload: seq<WireUnit>, w: WireUnit)
    requires w in payload && w.truck.WireNum?
    ensures exists m :: m in MergeUnits(existing, payload) && m.truck == w.truck
  {
    var r := MergeUnits(existing, payload);
    if Present(existing, w) {
      var i :| 0 <= i < |existing| && Names(existing[i], w);
      assert FormatExistingUnits(existing)[i].truck == WireNum(w.truck.n);
      assert r[i] == FormatExistingUnits(existing)[i];
      assert r[i] in r;
    } else {
      assert w in NewUnits(payload, existing);
      assert w in r[|existing|..];
    }
  }

  /** A new unit never duplicates the truck of an existing one. */
  lemma MergeAddsNoDuplicate(existing: seq<CalcUnit>, payload: seq<WireUnit>, i: int, w: WireUnit)
    requires 0 <= i < |existing| && w in NewUnits(payload, existing) && w.truck.WireNum?
    ensures FormatExistingUnits(existing)[i].truck != w.truck
  {
    assert !Names(existing[i], w);
  }

  /** Trucks 1 and 2 stored, trucks 2 and 3 drafted: the merge sends 1, 2, 3. */
  lemma MergeExample()
    ensures var existing := [ExistingUnit(1), ExistingUnit(2)];
            var payload := [DraftedUnit(2), DraftedUnit(3)];
            var r := MergeUnits(existing, payload);
            |r| == 3 && r[0].truck == WireNum(1) && r[1].truck == WireNum(2) && r[2].truck == WireNum(3)
  {
    var existing := [ExistingUnit(1), ExistingUnit(2)];
    var payload := [DraftedUnit(2), DraftedUnit(3)];
    assert Names(existing[1], payload[0]);
    assert Present(existing, payload[0]);
    assert !Present(existing, payload[1]) by {
      forall i | 0 <= i < |existing| ensures !Names(existing[i], payload[1]) {
      }
    }
    assert payload[1..] == [DraftedUnit(3)];
    assert NewUnits(payload[1..][1..], existing) == [];
    assert NewUnits(payload, existing) == [DraftedUnit(3)];
  }

  function ExistingUnit(truck: int): CalcUnit {
    CalcUnit(Some(truck), TruckObject(Some(truck), None, ""), None, NoStatement, None, "", "", Num(10.0), Absent, "", "")
  }

  function DraftedUnit(truck: int): WireUnit {
    WireUnit(WireNum(truck), Rendered(5.0), Rendered(0.0), None, None, None, "")
  }

  // ---------------------------------------------------------------------------
  // handleSubmit
  // ---------------------------------------------------------------------------

  /** A thrown request error: `message`, `response.error`, `response.detail` ("" when absent). */
  datatype ApiError = ApiError(message: string, error: string, detail: string)

  /** The requests the drawer sends, in order. */
  datatype Request =
    | Lookup(owner: string, startDate: string, endDate: string)
    | Post(body: CalcRequest)
    | Patch(calculation: Option<int>, body: CalcRequest)

  /** How a submit ends: turned away by a check, nothing new to add, saved, or failed with the
      message shown. */
  datatype Effect = Rejected(error: SubmitError) | NothingToAdd | Saved | Failed(message: string)

  datatype Outcome = Outcome(requests: seq<Request>, effect: Effect, state: DraftState)

  /** The server's answers, in the order the drawer asks: the first lookup, the first write
      (None when it succeeds), the lookup after a conflict, the merged write. */
  datatype Env = Env(lookup: ListReply<OwnerCalc>, write: Option<ApiError>,
                     relookup: ListReply<OwnerCalc>, mergeWrite: Option<ApiError>)

  /** The message of the TypeError line 410 throws when no calculation was found. */
  const NullRead := "Cannot read properties of null (reading 'calculation_units')"

  const Generic := "Something went wrong while creating/updating calculation."

  /** `err.message || err.response.error || err.response.detail || generic`. */
  function ErrorMessage(e: ApiError): (m: string)
    ensures m != ""
    ensures e.message != "" ==> m == e.message
    ensures e.message == "" && e.error != "" ==> m == e.error
    ensures e.message == "" && e.error == "" && e.detail != "" ==> m == e.detail
    ensures e.message == "" && e.error == "" && e.detail == "" ==> m == Generic
  {
    if e.message != "" then e.message
    else if e.error != "" then e.error
    else if e.detail != "" then e.detail
    else Generic
  }

  /** The conflict test: "already exists" in the message, the error, or the detail. */
  predicate AlreadyExists(e: ApiError) {
    Includes(e.message, "already exists") || Includes(e.error, "already exists") || Includes(e.detail, "already exists")
  }

  /** A duplicate-calculation answer is recognised wherever the phrase sits. */
  lemma AlreadyExistsAnywhere(e: ApiError, i: int)
    requires OccursAt(e.detail, "already exists", i)
    ensures AlreadyExists(e)
  {
    IncludesIff(e.detail, "already exists");
  }

  /** The recovery after a failed POST: only an "already exists" answer with a calculation
      found on the second lookup leads to a merged POST to the collection; otherwise the
      POST error is what the drawer reports. */
  function Recover(st: DraftState, payload: seq<WireUnit>, err: ApiError, env: Env): (r: Outcome)
    ensures r.effect == Saved ==> env.mergeWrite.None? && AlreadyExists(err)
                                   && FetchExistingCalculation(env.relookup, st.owner, st.startDate, st.endDate).Some?
    ensures !AlreadyExists(err) ==> r.effect == Failed(ErrorMessage(err)) && r.requests == []
    ensures AlreadyExists(err) && FetchExistingCalculation(env.relookup, st.owner, st.startDate, st.endDate).None? ==>
              r.effect == Failed(ErrorMessage(err))
    ensures AlreadyExists(err) ==> |r.requests| >= 1 && r.requests[0] == Lookup(st.owner, st.startDate, st.endDate)
    ensures r.effect == NothingToAdd ==>
              var c := FetchExistingCalculation(env.relookup, st.owner, st.startDate, st.endDate);
              c.Some? && NewUnits(payload, UnitsOf(c.value)) == []
    ensures |r.requests| == 2 ==>
              var c := FetchExistingCalculation(env.relookup, st.owner, st.startDate, st.endDate);
              c.Some? && r.requests[1] == Post(CalcRequest(st.owner, st.startDate, st.endDate, MergeUnits(UnitsOf(c.value), payload)))
    ensures |r.requests| <= 2 && forall q :: q in r.requests ==> !q.Patch?
    ensures r.state == if r.effect == Saved then Reset() else st
    ensures !r.effect.Rejected? && (r.effect.Failed? ==> r.effect.message != "")
  {
    if !AlreadyExists(err) then Outcome([], Failed(ErrorMessage(err)), st)
    else
      var lookup := Lookup(st.owner, st.startDate, st.endDate);
      var c := FetchExistingCalculation(env.relookup, st.owner, st.startDate, st.endDate);
      if c.None? then Outcome([lookup], Failed(ErrorMessage(err)), st)
      else
        var existing := UnitsOf(c.value);
        if NewUnits(payload, existing) == [] then Outcome([lookup], NothingToAdd, st)
        else
          var post := Post(CalcRequest(st.owner, st.startDate, st.endDate, MergeUnits(existing, payload)));
          if env.mergeWrite.None? then Outcome([lookup, post], Saved, Reset())
          else Outcome([lookup, post], Failed(ErrorMessage(env.mergeWrite.value)), st)
  }

  /** The dispatch of line 409 as written, once the lookup answered and the payload is
      non-empty: a missing calculation makes line 410 read a field of null; a found one
      leads to a POST of the draft, recovered only on an "already exists" answer. */
  function Dispatch(st: DraftState, payload: seq<WireUnit>, existing: Option<OwnerCalc>, env: Env): (r: Outcome)
    ensures existing.None? ==> r == Outcome([], Failed(NullRead), st)
    ensures existing.Some? ==> |r.requests| >= 1 && r.requests[0] == Post(CalcRequest(st.owner, st.startDate, st.endDate, payload))
    ensures r.state == if r.effect == Saved then Reset() else st
    ensures forall q :: q in r.requests ==> !q.Patch?
    ensures !r.effect.Rejected? && (r.effect.Failed? ==> r.effect.message != "")
    ensures r.effect == Saved ==> existing.Some? && (env.write.None? || AlreadyExists(env.write.value))
    ensures r.effect == Saved && env.write.None? ==> r.requests == [Post(CalcRequest(st.owner, st.startDate, st.endDate, payload))]
  {
    if existing.None? then Outcome([], Failed(NullRead), st)
    else
      var post := Post(CalcRequest(st.owner, st.startDate, st.endDate, payload));
      if env.write.None? then Outcome([post], Saved, Reset())
      else
        var rec := Recover(st, payload, env.write.value, env);
        Outcome([post] + rec.requests, rec.effect, rec.state)
  }

  /** `handleSubmit` as written: the checks, the lookup, the payload, then the dispatch. */
  function HandleSubmit(st: DraftState, trucks: seq<Truck>, env: Env): (r: Outcome)
    ensures CommonChecks(st).Some? <==> r.requests == []
    ensures CommonChecks(st).Some? ==> r.effect == Rejected(CommonChecks(st).value)
    ensures CommonChecks(st).None? ==> r.requests[0] == Lookup(st.owner, st.startDate, st.endDate)
    ensures r.effect == Rejected(NoValidUnits) <==>
              CommonChecks(st).None? && BuildPayload(st.units, trucks, AmountOnly) == []
    ensures r.state == if r.effect == Saved then Reset() else st
    ensures forall q :: q in r.requests ==> !q.Patch?
    ensures r.effect.Failed? ==> r.effect.message != ""
  {
    var checks := CommonChecks(st);
    if checks.Some? then Outcome([], Rejected(checks.value), st)
    else
      var lookup := Lookup(st.owner, st.startDate, st.endDate);
      var payload := BuildPayload(st.units, trucks, AmountOnly);
      if payload == [] then Outcome([lookup], Rejected(NoValidUnits), st)
      else
        var d := Dispatch(st, payload, FetchExistingCalculation(env.lookup, st.owner, st.startDate, st.endDate), env);
        Outcome([lookup] + d.requests, d.effect, d.state)
  }

  /** As written, the drawer never creates a calculation for a period that has none: a valid
      draft with no stored calculation always ends in the TypeError after the one lookup,
      and nothing is posted. */
  lemma AsWrittenNeverCreates(st: DraftState, trucks: seq<Truck>, env: Env)
    requires CommonChecks(st).None? && BuildPayload(st.units, trucks, AmountOnly) != []
    requires FetchExistingCalculation(env.lookup, st.owner, st.startDate, st.endDate).None?
    ensures HandleSubmit(st, trucks, env).effect == Failed(NullRead)
    ensures HandleSubmit(st, trucks, env).requests == [Lookup(st.owner, st.startDate, st.endDate)]
    ensures HandleSubmit(st, trucks, env).state == st
  {
  }

  /** A save needs a stored calculation, and a failed POST is recovered only on an
      "already exists" answer; a POST accepted at once is the only write sent. */
  lemma SavedOnlyWithStoredCalculation(st: DraftState, trucks: seq<Truck>, env: Env)
    requires HandleSubmit(st, trucks, env).effect == Saved
    ensures FetchExistingCalculation(env.lookup, st.owner, st.startDate, st.endDate).Some?
    ensures env.write.None? || AlreadyExists(env.write.value)
    ensures env.write.None? ==>
              HandleSubmit(st, trucks, env).requests ==
                [Lookup(st.owner, st.startDate, st.endDate),
                 Post(CalcRequest(st.owner, st.startDate, st.endDate, BuildPayload(st.units, trucks, AmountOnly)))]
  {
  }

  /** A concrete run: owner "acme", one drafted truck 7 that is in the directory, an empty
      lookup answer. The drawer reports the TypeError and posts nothing. */
  lemma AsWrittenExample()
    ensures var u := DraftUnit(7, "U7", "V", None, "", [], Text(""), Text("100"), Text(""), "", Manual, "", None, None);
            var st := DraftState("acme", "2024-01-01", "2024-01-07", {7}, [u], {});
            var trucks := [Truck(7, "U7", "V", NoDriver, None)];
            var r := HandleSubmit(st, trucks, Env(ArrayBody([]), None, ArrayBody([]), None));
            r.effect == Failed(NullRead) && |r.requests| == 1
  {
    var u := DraftUnit(7, "U7", "V", None, "", [], Text(""), Text("100"), Text(""), "", Manual, "", None, None);
    var st := DraftState("acme", "2024-01-01", "2024-01-07", {7}, [u], {});
    var trucks := [Truck(7, "U7", "V", NoDriver, None)];
    assert !Pending(st);
    assert FindTruck(trucks, 7).Some?;
    assert BuildPayload(st.units, trucks, AmountOnly) != [];
  }

  /** `handleSubmit` with the dispatch the dead branch evidently meant: a stored calculation is
      PATCHed with its formatted units plus the new ones (nothing sent when none is new);
      without one the draft is POSTed, with the same conflict recovery. */
  function HandleSubmitIntended(st: DraftState, trucks: seq<Truck>, env: Env): (r: Outcome)
    ensures CommonChecks(st).Some? <==> r.requests == []
    ensures CommonChecks(st).Some? ==> r.effect == Rejected(CommonChecks(st).value)
    ensures r.state == if r.effect == Saved then Reset() else st
    ensures r.effect.Failed? ==> r.effect.message != NullRead || env.write.Some? || env.mergeWrite.Some?
    ensures var c := FetchExistingCalculation(env.lookup, st.owner, st.startDate, st.endDate);
            CommonChecks(st).None? && c.Some? && |r.requests| > 1 ==>
              r.requests[1] == Patch(c.value.id, CalcRequest(st.owner, st.startDate, st.endDate,
                                     MergeUnits(UnitsOf(c.value), BuildPayload(st.units, trucks, AmountOnly))))
              && NewUnits(BuildPayload(st.units, trucks, AmountOnly), UnitsOf(c.value)) != []
  {
    var checks := CommonChecks(st);
    if checks.Some? then Outcome([], Rejected(checks.value), st)
    else
      var lookup := Lookup(st.owner, st.startDate, st.endDate);
      var existing := FetchExistingCalculation(env.lookup, st.owner, st.startDate, st.endDate);
      var payload := BuildPayload(st.units, trucks, AmountOnly);
      if payload == [] then Outcome([lookup], Rejected(NoValidUnits), st)
      else if existing.Some? then
        var units := UnitsOf(existing.value);
        if NewUnits(payload, units) == [] then Outcome([lookup], NothingToAdd, st)
        else
          var patch := Patch(existing.value.id, CalcRequest(st.owner, st.startDate, st.endDate, MergeUnits(units, payload)));
          if env.write.None? then Outcome([lookup, patch], Saved, Reset())
          else Outcome([lookup, patch], Failed(ErrorMessage(env.write.value)), st)
      else
        var post := Post(CalcRequest(st.owner, st.startDate, st.endDate, payload));
        if env.write.None? then Outcome([lookup, post], Saved, Reset())
        else
          var rec := Recover(st, payload, env.write.value, env);
          Outcome([lookup, post] + rec.requests, rec.effect, rec.state)
  }

  /** With the intended dispatch a period without a stored calculation is created: the draft's
      payload is POSTed and, when the server accepts it, the drawer resets. */
  lemma IntendedCreates(st: DraftState, trucks: seq<Truck>, env: Env)
    requires CommonChecks(st).None? && BuildPayload(st.units, trucks, AmountOnly) != []
    requires FetchExistingCalculation(env.lookup, st.owner, st.startDate, st.endDate).None?
    requires env.write.None?
    ensures HandleSubmitIntended(st, trucks, env).effect == Saved
    ensures HandleSubmitIntended(st, trucks, env).requests ==
              [Lookup(st.owner, st.startDate, st.endDate),
               Post(CalcRequest(st.owner, st.startDate, st.endDate, BuildPayload(st.units, trucks, AmountOnly)))]
  {
  }

  /** Both dispatches agree whenever the checks or an empty payload stop the submit. */
  lemma DispatchesAgreeOnRejection(st: DraftState, trucks: seq<Truck>, env: Env)
    requires CommonChecks(st).Some? || BuildPayload(st.units, trucks, AmountOnly) == []
    ensures HandleSubmit(st, trucks, env) == HandleSubmitIntended(st, trucks, env)
  {
  }
}
