/** The draft builder hook of src/hooks/useOwner.js: adding a truck with all of its drivers,
    aggregating the per-driver statements into one unit, the submit checks and the single
    create request, the truck options, and the resets. */
module UseOwner {
  import opened Js
  import opened Records
  import opened Draft

  // ---------------------------------------------------------------------------
  // addTruck
  // ---------------------------------------------------------------------------

  /** The drivers of a directory truck: every entry of a non-empty list, an object driver
      with a truthy id, a bare numeric driver, else the truck's truthy `driver_id`. */
  function DriversOf(t: Truck): (ds: seq<DraftDriver>)
    ensures t.driver.DriverList? && |t.driver.entries| > 0 ==>
              |ds| == |t.driver.entries|
              && forall i :: 0 <= i < |ds| ==> ds[i].id == t.driver.entries[i].id && ds[i].fullName == t.driver.entries[i].fullName
    ensures |ds| == 0 <==>
              !(t.driver.DriverList? && |t.driver.entries| > 0)
              && !(t.driver.DriverObject? && TruthyId(t.driver.entry.id))
              && !(t.driver.DriverNumber? && t.driver.n != 0)
              && !TruthyId(t.driverId)
    ensures |ds| <= 1 || t.driver.DriverList?
    ensures forall i :: 0 <= i < |ds| ==> ds[i].amount == Text("") && ds[i].statementId.None?
  {
    match t.driver
    case DriverList(entries) =>
      if |entries| > 0 then EntryDrivers(entries)
      else if TruthyId(t.driverId) then [DraftDriver(t.driverId, "", Text(""), None)] else []
    case DriverObject(e) =>
      if TruthyId(e.id) then [DraftDriver(e.id, e.fullName, Text(""), None)]
      else if TruthyId(t.driverId) then [DraftDriver(t.driverId, "", Text(""), None)] else []
    case DriverNumber(n) =>
      if n != 0 then [DraftDriver(Some(n), "", Text(""), None)]
      else if TruthyId(t.driverId) then [DraftDriver(t.driverId, "", Text(""), None)] else []
    case NoDriver =>
      if TruthyId(t.driverId) then [DraftDriver(t.driverId, "", Text(""), None)] else []
  }

  function EntryDrivers(entries: seq<DriverEntry>): (ds: seq<DraftDriver>)
    ensures |ds| == |entries|
    ensures forall i :: 0 <= i < |ds| ==> ds[i] == DraftDriver(entries[i].id, entries[i].fullName, Text(""), None)
  {
    if |entries| == 0 then [] else [DraftDriver(entries[0].id, entries[0].fullName, Text(""), None)] + EntryDrivers(entries[1..])
  }

  function Names(ds: seq<DraftDriver>): (r: seq<string>)
    ensures |r| == |ds| && forall i :: 0 <= i < |ds| ==> r[i] == ds[i].fullName
  {
    if |ds| == 0 then [] else [ds[0].fullName] + Names(ds[1..])
  }

  /** The unit `addTruck` appends: status loading, every amount, the escrow and the note
      empty, the driver names joined by " / ", the first driver's id. */
  function NewItem(t: Truck): (u: DraftUnit)
    ensures u.truckId == t.id && u.status == Loading
    ensures u.totalAmount == Text("") && u.amount == Text("") && u.escrow == Text("") && u.note == ""
    ensures u.company == "" && u.pdf.None? && u.statementId.None?
    ensures u.drivers == DriversOf(t)
    ensures u.driverName == Join(NonEmpty(Names(DriversOf(t))), " / ")
    ensures u.driverId == if |DriversOf(t)| > 0 then DriversOf(t)[0].id else None
    ensures u.unitNumber != "" && u.vin != ""
  {
    var ds := DriversOf(t);
    DraftUnit(
      t.id,
      if t.unitNumber != "" then t.unitNumber else "N/A",
      if t.vin != "" then t.vin else "N/A",
      if |ds| > 0 then ds[0].id else None,
      Join(NonEmpty(Names(ds)), " / "),
      ds, Text(""), Text(""), Text(""), "", Loading, "", None, None)
  }

  /** The synchronous part of `addTruck(pick)`: `pick` is the parsed option value, None
      when the select was cleared. Nothing changes when nothing was picked, a date is
      missing, the truck is unknown, or it is already selected. */
  function AddTruck(st: DraftState, trucks: seq<Truck>, pick: Option<int>): (r: DraftState)
    ensures pick.None? || !DatesSet(st) ==> r == st
    ensures pick.Some? && FindTruck(trucks, pick.value).None? ==> r == st
    ensures pick.Some? && pick.value in st.selected ==> r == st
    ensures r != st ==>
              pick.Some? && DatesSet(st) && pick.value !in st.selected
              && FindTruck(trucks, pick.value).Some?
              && r.selected == st.selected + {pick.value}
              && r.units == st.units + [NewItem(FindTruck(trucks, pick.value).value)]
              && r.owner == st.owner && r.startDate == st.startDate && r.endDate == st.endDate
              && r.loadingDrivers == st.loadingDrivers
    ensures pick.Some? && DatesSet(st) && pick.value !in st.selected && FindTruck(trucks, pick.value).Some? ==>
              |r.units| == |st.units| + 1
    ensures Consistent(st) ==> Consistent(r)
  {
    if pick.None? || !DatesSet(st) then st
    else
      var t := FindTruck(trucks, pick.value);
      if t.None? || t.value.id in st.selected then st
      else
        var r := st.(selected := st.selected + {t.value.id}, units := st.units + [NewItem(t.value)]);
        assert |r.units| > |st.units|;
        assert Consistent(st) ==> Consistent(r) by {
          if Consistent(st) { AppendKeepsConsistent(st, NewItem(t.value)); }
        }
        r
  }

  // ---------------------------------------------------------------------------
  // fetchMultipleDriversData
  // ---------------------------------------------------------------------------

  /** One driver's result: what their statement said, or zeros when there was none or the
      request failed. */
  datatype DriverResult = DriverResult(
    id: Option<int>, fullName: string, amount: Value, statementId: Option<int>,
    driverName: string, company: string, note: string, pdf: Option<string>)

  function ResultOf(d: DraftDriver, reply: Reply): (r: DriverResult)
    ensures r.id == d.id && r.fullName == d.fullName
    ensures RecordOf(reply).None? ==>
              r.amount == Num(0.0) && r.statementId.None? && r.company == "" && r.note == "" && r.pdf.None?
    ensures RecordOf(reply).Some? ==>
              var info := ExtractDriverInfo(RecordOf(reply).value);
              r.amount == info.totalAmount && r.company == info.companyName && r.note == info.note
              && r.pdf == info.pdf && r.statementId == info.statementId
  {
    var rec := RecordOf(reply);
    if rec.None? then DriverResult(d.id, d.fullName, Num(0.0), None, "", "", "", None)
    else
      var info := ExtractDriverInfo(rec.value);
      DriverResult(d.id, d.fullName, info.totalAmount, info.statementId, info.driverName, info.companyName, info.note, info.pdf)
  }

  /** The per-driver results, one per driver in driver order; a reply missing from `replies`
      counts as a failed request. */
  function Results(ds: seq<DraftDriver>, replies: seq<Reply>): (rs: seq<DriverResult>)
    ensures |rs| == |ds|
    ensures forall i :: 0 <= i < |ds| ==> rs[i] == ResultOf(ds[i], if i < |replies| then replies[i] else FailedReply)
  {
    if |ds| == 0 then []
    else
      var rest := Results(ds[1..], if |replies| > 0 then replies[1..] else []);
      [ResultOf(ds[0], if |replies| > 0 then replies[0] else FailedReply)] + rest
  }

  /** `parseFloat(d.amount) || 0`. */
  function AmountOf(d: DriverResult): real {
    OrZero(ParseValue(d.amount))
  }

  /** `reduce((sum, d) => sum + (parseFloat(d.amount) || 0), 0)`. */
  function SumAmounts(rs: seq<DriverResult>): real {
    if |rs| == 0 then 0.0 else SumAmounts(rs[..|rs| - 1]) + AmountOf(rs[|rs| - 1])
  }

  /** The total splits over any cut of the results: per-driver amounts just add up. */
  lemma {:induction false} SumAppend(a: seq<DriverResult>, b: seq<DriverResult>)
    ensures SumAmounts(a + b) == SumAmounts(a) + SumAmounts(b)
  {
    if |b| == 0 {
      assert a + b == a;
    } else {
      SumAppend(a, b[..|b| - 1]);
      assert (a + b)[..|a + b| - 1] == a + b[..|b| - 1];
    }
  }

  /** A driver whose lookup failed adds nothing to the total. */
  lemma FailedAddsNothing(rs: seq<DriverResult>, d: DraftDriver)
    ensures SumAmounts(rs + [ResultOf(d, FailedReply)]) == SumAmounts(rs)
  {
    assert (rs + [ResultOf(d, FailedReply)])[..|rs|] == rs;
  }

  function Companies(rs: seq<DriverResult>): (r: seq<string>)
    ensures |r| == |rs| && forall i :: 0 <= i < |rs| ==> r[i] == rs[i].company
  {
    if |rs| == 0 then [] else [rs[0].company] + Companies(rs[1..])
  }

  function Notes(rs: seq<DriverResult>): (r: seq<string>)
    ensures |r| == |rs| && forall i :: 0 <= i < |rs| ==> r[i] == rs[i].note
  {
    if |rs| == 0 then [] else [rs[0].note] + Notes(rs[1..])
  }

  /** `find(d => d.pdf)?.pdf || null`: the first pdf any driver has. */
  function FirstPdf(rs: seq<DriverResult>): (r: Option<string>)
    ensures r.None? <==> forall i :: 0 <= i < |rs| ==> rs[i].pdf.None? || rs[i].pdf.value == ""
    ensures r.Some? ==> exists i :: 0 <= i < |rs| && rs[i].pdf == r
                           && r.value != ""
                           && forall j :: 0 <= j < i ==> rs[j].pdf.None? || rs[j].pdf.value == ""
  {
    if |rs| == 0 then None
    else if rs[0].pdf.Some? && rs[0].pdf.value != "" then rs[0].pdf
    else
      var r := FirstPdf(rs[1..]);
      if r.Some? then
        var i :| 0 <= i < |rs[1..]| && rs[1..][i].pdf == r && r.value != ""
                 && forall j :: 0 <= j < i ==> rs[1..][j].pdf.None? || rs[1..][j].pdf.value == "";
        assert rs[i + 1].pdf == r;
        r
      else r
  }

  function Kept(rs: seq<DriverResult>): (r: seq<DraftDriver>)
    ensures |r| == |rs|
    ensures forall i :: 0 <= i < |rs| ==>
              r[i] == DraftDriver(rs[i].id, rs[i].fullName, ToText(rs[i].amount), rs[i].statementId)
  {
    if |rs| == 0 then []
    else [DraftDriver(rs[0].id, rs[0].fullName, ToText(rs[0].amount), rs[0].statementId)] + Kept(rs[1..])
  }

  /** The unit once every driver's lookup settled: fetched, with the total of the amounts, the
      non-empty companies joined by ", ", the non-empty notes joined by "; ", and the first pdf.
      The name, escrow, driver id and statement id stay as they were. */
  function Aggregate(u: DraftUnit, rs: seq<DriverResult>): (v: DraftUnit)
    ensures v.status == Fetched
    ensures v.totalAmount == Rendered(SumAmounts(rs))
    ensures v.company == Join(NonEmpty(Companies(rs)), ", ")
    ensures v.note == Join(NonEmpty(Notes(rs)), "; ")
    ensures v.pdf == FirstPdf(rs)
    ensures |v.drivers| == |rs|
    ensures v.truckId == u.truckId && v.driverName == u.driverName && v.escrow == u.escrow
    ensures v.driverId == u.driverId && v.statementId == u.statementId && v.amount == u.amount
  {
    u.(status := Fetched, drivers := Kept(rs), totalAmount := Rendered(SumAmounts(rs)),
       company := Join(NonEmpty(Companies(rs)), ", "), note := Join(NonEmpty(Notes(rs)), "; "),
       pdf := FirstPdf(rs))
  }

  /** What follows the append in `addTruck`: a unit without drivers turns manual; otherwise
      every driver is looked up (`replies`, in driver order) and the unit turns fetched with
      the aggregate, whatever the lookups returned. The in-flight mark is gone afterwards. */
  function Settle(st: DraftState, u: DraftUnit, replies: seq<Reply>): (r: DraftState)
    ensures r.selected == st.selected && TruckIds(r.units) == TruckIds(st.units)
    ensures |r.units| == |st.units|
    ensures forall i :: 0 <= i < |st.units| && st.units[i].truckId != u.truckId ==> r.units[i] == st.units[i]
    ensures forall i :: 0 <= i < |st.units| && st.units[i].truckId == u.truckId ==>
              r.units[i].status == (if |u.drivers| > 0 && DatesSet(st) then Fetched else Manual)
    ensures |u.drivers| > 0 && DatesSet(st) ==>
              forall i :: 0 <= i < |st.units| && st.units[i].truckId == u.truckId ==>
                r.units[i] == Aggregate(st.units[i], Results(u.drivers, replies))
    ensures |u.drivers| > 0 && DatesSet(st) ==> r.loadingDrivers == st.loadingDrivers - {u.truckId}
    ensures Consistent(st) ==> Consistent(r)
  {
    if |u.drivers| == 0 || !DatesSet(st) then
      var units := SetStatus(st.units, u.truckId, Manual);
      assert forall i :: 0 <= i < |units| ==> units[i].truckId == st.units[i].truckId;
      assert TruckIds(units) == TruckIds(st.units);
      st.(units := units)
    else
      var rs := Results(u.drivers, replies);
      var units := AggregateAll(st.units, u.truckId, rs);
      st.(units := units, loadingDrivers := st.loadingDrivers - {u.truckId})
  }

  function AggregateAll(units: seq<DraftUnit>, id: int, rs: seq<DriverResult>): (r: seq<DraftUnit>)
    ensures |r| == |units| && TruckIds(r) == TruckIds(units)
    ensures forall i :: 0 <= i < |units| ==> r[i] == if units[i].truckId == id then Aggregate(units[i], rs) else units[i]
    ensures DistinctTrucks(units) ==> DistinctTrucks(r)
  {
    var r := seq(|units|, i requires 0 <= i < |units| => if units[i].truckId == id then Aggregate(units[i], rs) else units[i]);
    SameTruckIds(units, r);
    r
  }

  /** A whole `addTruck`: the append, then the lookups. The added unit is never left loading. */
  function AddTruckAndSettle(st: DraftState, trucks: seq<Truck>, pick: Option<int>, replies: seq<Reply>): (r: DraftState)
    ensures Consistent(st) ==> Consistent(r)
  {
    var mid := AddTruck(st, trucks, pick);
    if mid == st then st else Settle(mid, mid.units[|mid.units| - 1], replies)
  }

  /** After a successful add, the new unit is fetched when its truck has a driver, manual
      otherwise; and a truck whose every lookup failed still ends fetched, with total 0. */
  lemma AddedUnitStatus(st: DraftState, trucks: seq<Truck>, id: int, replies: seq<Reply>)
    requires Consistent(st) && DatesSet(st) && id !in st.selected
    requires FindTruck(trucks, id).Some?
    ensures var r := AddTruckAndSettle(st, trucks, Some(id), replies);
            var t := FindTruck(trucks, id).value;
            |r.units| == |st.units| + 1
            && r.units[|st.units|].truckId == id
            && r.units[|st.units|].status == (if |DriversOf(t)| > 0 then Fetched else Manual)
            && r.units[..|st.units|] == st.units
    ensures replies == [] && |DriversOf(FindTruck(trucks, id).value)| > 0 ==>
              AddTruckAndSettle(st, trucks, Some(id), replies).units[|st.units|].totalAmount == Rendered(0.0)
  {
    var t := FindTruck(trucks, id).value;
    var mid := AddTruck(st, trucks, Some(id));
    assert mid.units == st.units + [NewItem(t)];
    var u := mid.units[|st.units|];
    assert u == NewItem(t) && u.truckId == id && DatesSet(mid);
    var r := Settle(mid, u, replies);
    assert r == AddTruckAndSettle(st, trucks, Some(id), replies);
    forall i | 0 <= i < |st.units| ensures r.units[i] == st.units[i] {
      assert st.units[i].truckId in TruckIds(st.units);
      assert mid.units[i] == st.units[i];
    }
    assert r.units[|st.units|].status == (if |DriversOf(t)| > 0 then Fetched else Manual);
    if replies == [] && |DriversOf(t)| > 0 {
      assert r.units[|st.units|] == Aggregate(u, Results(u.drivers, replies));
      AllFailedSumZero(u.drivers);
    }
  }

  /** When every lookup fails the total is 0: each failure contributes amount 0. */
  lemma {:induction false} AllFailedSumZero(ds: seq<DraftDriver>)
    ensures SumAmounts(Results(ds, [])) == 0.0
  {
    if |ds| > 0 {
      var rs := Results(ds, []);
      var front := Results(ds[..|ds| - 1], []);
      assert rs[..|rs| - 1] == front by {
        forall i | 0 <= i < |front| ensures rs[..|rs| - 1][i] == front[i] {
          assert ds[..|ds| - 1][i] == ds[i];
        }
      }
      AllFailedSumZero(ds[..|ds| - 1]);
      assert AmountOf(rs[|rs| - 1]) == 0.0;
    }
  }

  // ---------------------------------------------------------------------------
  // handleSubmit
  // ---------------------------------------------------------------------------

  /** `item.unitNumber || item.truckId` as the error message shows it. */
  function Label(u: DraftUnit): string {
    if u.unitNumber != "" then u.unitNumber else IntToString(u.truckId)
  }

  /** The hook's per-unit amount check: the field is set, is not "0", and cleans to a
      non-zero number. */
  predicate AmountOk(u: DraftUnit) {
    var t := AmountText(u, TotalThenAmount);
    TextTruthy(t) && t != Text("0") && t != Rendered(0.0) && CleanedValue(t) != 0.0
  }

  /** The first unit whose amount fails the check. */
  function FirstBadAmount(units: seq<DraftUnit>): (r: Option<nat>)
    ensures r.None? <==> forall i :: 0 <= i < |units| ==> AmountOk(units[i])
    ensures r.Some? ==> r.value < |units| && !AmountOk(units[r.value])
                        && forall j :: 0 <= j < r.value ==> AmountOk(units[j])
  {
    if |units| == 0 then None
    else if !AmountOk(units[0]) then Some(0)
    else
      var r := FirstBadAmount(units[1..]);
      if r.Some? then Some(r.value + 1) else None
  }

  /** The hook's checks in order: owner, dates, a non-empty draft, nothing loading, then
      every unit's amount, naming the first unit that fails. */
  function Validate(st: DraftState): (r: Option<SubmitError>)
    ensures r.None? <==> CommonChecks(st).None? && forall i :: 0 <= i < |st.units| ==> AmountOk(st.units[i])
    ensures CommonChecks(st).Some? ==> r == CommonChecks(st)
    ensures r.Some? && r.value.ZeroAmount? ==>
              CommonChecks(st).None?
              && exists i :: 0 <= i < |st.units| && !AmountOk(st.units[i]) && r.value.unitLabel == Label(st.units[i])
                             && forall j :: 0 <= j < i ==> AmountOk(st.units[j])
  {
    if CommonChecks(st).Some? then CommonChecks(st)
    else
      var bad := FirstBadAmount(st.units);
      if bad.Some? then Some(ZeroAmount(Label(st.units[bad.value]))) else None
  }

  /** The outcome of a submit: rejected with a reason and no request sent, or one create
      request sent, with `created` telling whether the server accepted it. */
  datatype Outcome = Rejected(error: SubmitError) | Sent(request: CalcRequest, created: bool)

  /** `handleSubmit`. `created` is the server's answer to the one POST; a failure is only
      reported and never reaches `onSuccess`. */
  function HandleSubmit(st: DraftState, trucks: seq<Truck>, created: bool): (r: Outcome)
    ensures Validate(st).Some? <==> r.Rejected? && r.error != NoValidUnits
    ensures r.Rejected? && r.error == NoValidUnits <==>
              Validate(st).None? && forall i :: 0 <= i < |st.units| ==> FindTruck(trucks, st.units[i].truckId).None?
    ensures r.Sent? ==>
              r.request.owner == st.owner && r.request.startDate == st.startDate && r.request.endDate == st.endDate
              && r.request.units == BuildPayload(st.units, trucks, TotalThenAmount)
              && |r.request.units| > 0 && r.created == created
    ensures r.Sent? ==> forall w :: w in r.request.units ==> w.amount.Rendered? && w.amount.r != 0.0
  {
    var v := Validate(st);
    if v.Some? then Rejected(v.value)
    else
      var units := BuildPayload(st.units, trucks, TotalThenAmount);
      PayloadEmpty(st.units, trucks, TotalThenAmount);
      if |units| == 0 then Rejected(NoValidUnits)
      else
        assert forall w :: w in units ==> w.amount.Rendered? && w.amount.r != 0.0 by {
          PayloadSound(st.units, trucks, TotalThenAmount);
          forall w | w in units ensures w.amount.Rendered? && w.amount.r != 0.0 {
            var u :| u in st.units && UnitPayload(u, trucks, TotalThenAmount) == Some(w);
            assert AmountOk(u);
          }
        }
        Sent(CalcRequest(st.owner, st.startDate, st.endDate, units), created)
  }

  /** A consistent draft's request never names a truck twice. */
  lemma SentTrucksDistinct(st: DraftState, trucks: seq<Truck>, created: bool)
    requires Consistent(st) && HandleSubmit(st, trucks, created).Sent?
    ensures DistinctWireTrucks(HandleSubmit(st, trucks, created).request.units)
  {
    var r := HandleSubmit(st, trucks, created);
    assert r.request.units == BuildPayload(st.units, trucks, TotalThenAmount);
    PayloadTrucksDistinct(st.units, trucks, TotalThenAmount);
  }

  // ---------------------------------------------------------------------------
  // Options
  // ---------------------------------------------------------------------------

  /** One entry of the truck select. */
  datatype SelectOption = SelectOption(text: string, value: string, unitNumber: string, driverName: string)

  /** The option list's counterpart of `Names`: the select reads the directory's driver
      entries, not the unit's draft drivers, so the entries are first turned into draft
      drivers and then named by `Names`. */
  function FullNames(entries: seq<DriverEntry>): (r: seq<string>)
    ensures |r| == |entries| && forall i :: 0 <= i < |entries| ==> r[i] == entries[i].fullName
  {
    Names(EntryDrivers(entries))
  }

  /** The names with a non-blank trim, untrimmed, in order. */
  function NonBlank(names: seq<string>): (r: seq<string>)
    ensures |r| <= |names|
    ensures forall s :: s in r <==> s in names && Trim(s) != ""
  {
    if |names| == 0 then []
    else if Trim(names[0]) != "" then [names[0]] + NonBlank(names[1..])
    else NonBlank(names[1..])
  }

  /** The filter keeps order: it distributes over concatenation. */
  lemma {:induction false} NonBlankAppend(a: seq<string>, b: seq<string>)
    ensures NonBlank(a + b) == NonBlank(a) + NonBlank(b)
  {
    if |a| == 0 {
      assert a + b == b;
    } else {
      assert (a + b)[0] == a[0] && (a + b)[1..] == a[1..] + b;
      NonBlankAppend(a[1..], b);
    }
  }

  /** The names an option shows: the non-blank names of a driver list, or an object
      driver's truthy `full_name`. A bare numeric driver or `driver_id` shows none. */
  function OptionNames(t: Truck): (r: seq<string>)
    ensures forall s :: s in r ==> s != ""
    ensures t.driver.DriverList? ==> r == NonBlank(FullNames(t.driver.entries))
    ensures t.driver.DriverObject? ==> r == if t.driver.entry.fullName != "" then [t.driver.entry.fullName] else []
    ensures t.driver.NoDriver? || t.driver.DriverNumber? ==> r == []
  {
    match t.driver
    case DriverList(entries) => NonBlank(FullNames(entries))
    case DriverObject(e) => if e.fullName != "" then [e.fullName] else []
    case _ => []
  }

  function OptionOf(t: Truck): (o: SelectOption)
    ensures o.value == IntToString(t.id)
    ensures o.unitNumber == if t.unitNumber != "" then t.unitNumber else "N/A"
    ensures o.driverName == Join(OptionNames(t), " / ")
    ensures o.driverName == "" <==> OptionNames(t) == []
    ensures o.driverName == "" ==> o.text == "Unit " + o.unitNumber + " - No Driver"
    ensures o.driverName != "" ==> o.text == "Unit " + o.unitNumber + " - " + o.driverName
    ensures o.unitNumber != ""
  {
    var unitNumber := if t.unitNumber != "" then t.unitNumber else "N/A";
    var driverName := Join(OptionNames(t), " / ");
    JoinEmptyIff(OptionNames(t), " / ");
    SelectOption(
      "Unit " + unitNumber + (if driverName != "" then " - " + driverName else " - No Driver"),
      IntToString(t.id), unitNumber, driverName)
  }

  /** `Options`: one option per unselected truck, in directory order. */
  function Options(trucks: seq<Truck>, selected: set<int>): (r: seq<SelectOption>)
    ensures |r| == |Unselected(trucks, selected)|
    ensures forall i :: 0 <= i < |r| ==> r[i] == OptionOf(Unselected(trucks, selected)[i])
  {
    var ts := Unselected(trucks, selected);
    seq(|ts|, i requires 0 <= i < |ts| => OptionOf(ts[i]))
  }

  /** The options keep directory order: they distribute over concatenation of the directory. */
  lemma OptionsAppend(a: seq<Truck>, b: seq<Truck>, selected: set<int>)
    ensures Options(a + b, selected) == Options(a, selected) + Options(b, selected)
  {
    UnselectedAppend(a, b, selected);
    OptionsIsOptionsOf(a + b, selected);
    OptionsIsOptionsOf(a, selected);
    OptionsIsOptionsOf(b, selected);
    OptionsOfAppend(Unselected(a, selected), Unselected(b, selected));
  }

  /** The option of each truck in `ts`, in order. */
  function OptionsOf(ts: seq<Truck>): (r: seq<SelectOption>)
    ensures |r| == |ts| && forall i :: 0 <= i < |ts| ==> r[i] == OptionOf(ts[i])
  {
    if |ts| == 0 then [] else [OptionOf(ts[0])] + OptionsOf(ts[1..])
  }

  /** `Options` is `OptionsOf` over the unselected trucks. */
  lemma OptionsIsOptionsOf(trucks: seq<Truck>, selected: set<int>)
    ensures Options(trucks, selected) == OptionsOf(Unselected(trucks, selected))
  {
  }

  /** The per-truck options distribute over concatenation. */
  lemma {:induction false} OptionsOfAppend(x: seq<Truck>, y: seq<Truck>)
    ensures OptionsOf(x + y) == OptionsOf(x) + OptionsOf(y)
  {
    if |x| == 0 {
      assert x + y == y;
    } else {
      assert (x + y)[0] == x[0] && (x + y)[1..] == x[1..] + y;
      OptionsOfAppend(x[1..], y);
    }
  }

  /** An option's value names exactly one truck: its value identifies the truck key. */
  lemma OptionValuesDistinct(trucks: seq<Truck>, selected: set<int>, i: int, j: int)
    requires 0 <= i < |Options(trucks, selected)| && 0 <= j < |Options(trucks, selected)|
    requires Options(trucks, selected)[i].value == Options(trucks, selected)[j].value
    ensures Unselected(trucks, selected)[i].id == Unselected(trucks, selected)[j].id
  {
    IntToStringInjective(Unselected(trucks, selected)[i].id, Unselected(trucks, selected)[j].id);
  }

  /** A selected truck's key is offered by no option. */
  lemma SelectedNotOffered(trucks: seq<Truck>, selected: set<int>, id: int)
    requires id in selected
    ensures forall o :: o in Options(trucks, selected) ==> o.value != IntToString(id)
  {
    var ts := Unselected(trucks, selected);
    forall o | o in Options(trucks, selected) ensures o.value != IntToString(id) {
      var i :| 0 <= i < |Options(trucks, selected)| && Options(trucks, selected)[i] == o;
      assert ts[i] in ts;
      if o.value == IntToString(id) {
        IntToStringInjective(ts[i].id, id);
      }
    }
  }
}
