/** The records the dashboard receives from the fleet-accounting API and sends back to it:
    directory trucks and their drivers, driver statements, calculation units, owner
    calculations, and the wire shape of a unit inside a create/update payload. Also the
    reply-shape handling and the helpers that the draft builder (src/hooks/useOwner.js) and
    the create drawer (src/CreateOwnerDrawer.jsx) share word for word. */
module Records {
  import opened Js

  /** JS truthiness of an id: present and not 0. */
  predicate TruthyId(id: Option<int>) {
    id.Some? && id.value != 0
  }

  /** `id || null`. */
  function IdOrNull(id: Option<int>): (r: Option<int>)
    ensures TruthyId(id) ==> r == id
    ensures !TruthyId(id) ==> r == None
  {
    if TruthyId(id) then id else None
  }

  // ---------------------------------------------------------------------------
  // Truck directory
  // ---------------------------------------------------------------------------

  /** A driver as the truck directory lists it: `id`, `_id`, `full_name` ("" when absent). */
  datatype DriverEntry = DriverEntry(id: Option<int>, altId: Option<int>, fullName: string)

  /** The shapes a directory truck's `driver` field takes: absent, a list of drivers,
      a single driver object, or a bare numeric driver id. */
  datatype TruckDriver =
    | NoDriver
    | DriverList(entries: seq<DriverEntry>)
    | DriverObject(entry: DriverEntry)
    | DriverNumber(n: int)

  /** A directory truck. `id` is the truck's `id || _id` key; `unitNumber` and `vin`
      are "" when absent; `driverId` is the truck-level `driver_id`. */
  datatype Truck = Truck(id: int, unitNumber: string, vin: string, driver: TruckDriver, driverId: Option<int>)

  /** `trucks.find(t => String(t.id || t._id) === String(id))`: the first truck with that key. */
  function FindTruck(trucks: seq<Truck>, id: int): (r: Option<Truck>)
    ensures r.Some? ==> r.value in trucks && r.value.id == id
    ensures r.None? <==> forall i :: 0 <= i < |trucks| ==> trucks[i].id != id
    ensures r.Some? ==> exists i :: 0 <= i < |trucks| && trucks[i] == r.value
                                  && forall j :: 0 <= j < i ==> trucks[j].id != id
  {
    if |trucks| == 0 then None
    else if trucks[0].id == id then Some(trucks[0])
    else
      var r := FindTruck(trucks[1..], id);
      if r.Some? then
        var i :| 0 <= i < |trucks[1..]| && trucks[1..][i] == r.value
                 && forall j :: 0 <= j < i ==> trucks[1..][j].id != id;
        assert trucks[i + 1] == r.value;
        r
      else r
  }

  /** The directory lookup compares String renderings of integer keys; that is key equality. */
  lemma FindTruckByString(trucks: seq<Truck>, id: int, t: Truck)
    requires t in trucks && IntToString(t.id) == IntToString(id)
    ensures FindTruck(trucks, id).Some?
  {
    IntToStringInjective(t.id, id);
  }

  /** The trucks still offered for selection (`filteredTrucks`, `Options`): the unselected
      ones, in directory order. */
  function Unselected(trucks: seq<Truck>, selected: set<int>): (r: seq<Truck>)
    ensures |r| <= |trucks|
    ensures forall t :: t in r <==> t in trucks && t.id !in selected
  {
    if |trucks| == 0 then []
    else if trucks[0].id in selected then Unselected(trucks[1..], selected)
    else [trucks[0]] + Unselected(trucks[1..], selected)
  }

  /** The offered trucks keep directory order: the filter distributes over concatenation. */
  lemma {:induction false} UnselectedAppend(a: seq<Truck>, b: seq<Truck>, selected: set<int>)
    ensures Unselected(a + b, selected) == Unselected(a, selected) + Unselected(b, selected)
  {
    if |a| == 0 {
      assert a + b == b;
    } else {
      assert (a + b)[0] == a[0] && (a + b)[1..] == a[1..] + b;
      UnselectedAppend(a[1..], b, selected);
    }
  }

  /** Selecting a truck removes it from the offered list and keeps every other offer. */
  lemma {:induction false} UnselectedAfterSelect(trucks: seq<Truck>, selected: set<int>, id: int)
    ensures Unselected(trucks, selected + {id}) == Filtered(Unselected(trucks, selected), id)
  {
    if |trucks| > 0 {
      UnselectedAfterSelect(trucks[1..], selected, id);
    }
  }

  /** The trucks of `ts` whose key is not `id`, in order. */
  function Filtered(ts: seq<Truck>, id: int): (r: seq<Truck>)
    ensures forall t :: t in r <==> t in ts && t.id != id
  {
    if |ts| == 0 then []
    else if ts[0].id == id then Filtered(ts[1..], id)
    else [ts[0]] + Filtered(ts[1..], id)
  }

  // ---------------------------------------------------------------------------
  // Driver statements
  // ---------------------------------------------------------------------------

  /** A statement's `driver` or `company` field: absent or falsy, a string,
      an object carrying `name` ("" when absent), or some other truthy value. */
  datatype NameField = NameAbsent | NameText(s: string) | NameObject(name: string) | NameOther

  /** A unit's or a statement's `statement` link: null/undefined, a bare id, or an object
      whose `id` may be missing. */
  datatype StatementRef = NoStatement | StatementNum(n: int) | StatementObject(id: Option<int>)

  /** A driver statement as `/statement-by-driver/` returns it. String fields are "" when absent. */
  datatype Statement = Statement(
    id: Option<int>,
    driver: NameField, driverName: string,
    company: NameField, companyName: string, carrierCompany: string,
    totalAmount: Value, amount: Value, escrow: Value, totalEscrow: Value,
    note: string, pdf: string, pdfUrl: string,
    statement: StatementRef, statementId: Option<int>)

  /** What a `/statement-by-driver/` request produced: a JSON array, a JSON object,
      any other JSON value (null included), or a thrown error. */
  datatype Reply = ArrayReply(items: seq<Statement>) | ObjectReply(record: Statement) | OtherReply | FailedReply

  /** The statement a reply carries: the head of a non-empty array, or the object itself. */
  function RecordOf(reply: Reply): (r: Option<Statement>)
    ensures r.Some? <==> (reply.ArrayReply? && |reply.items| > 0) || reply.ObjectReply?
    ensures r.Some? && reply.ArrayReply? ==> r.value == reply.items[0]
    ensures r.Some? && reply.ObjectReply? ==> r.value == reply.record
  {
    match reply
    case ArrayReply(items) => if |items| > 0 then Some(items[0]) else None
    case ObjectReply(record) => Some(record)
    case _ => None
  }

  /** `data.driver ? (object with name ? name : string ? it : '') : fallback`. */
  function NameOf(f: NameField, fallback: string): string {
    match f
    case NameAbsent => fallback
    case NameText(s) => if s != "" then s else fallback
    case NameObject(name) => name
    case NameOther => ""
  }

  /** The fields `extractDriverInfo` pulls out of a statement. */
  datatype DriverInfo = DriverInfo(
    driverName: string, companyName: string, totalAmount: Value,
    note: string, pdf: Option<string>, statementId: Option<int>)

  /** `extractDriverInfo`: name and company by field-shape fallback, `total_amount || amount || 0`,
      `note || ''`, `pdf || pdf_url || null`, `id || null`. */
  function ExtractDriverInfo(data: Statement): (r: DriverInfo)
    ensures Truthy(data.totalAmount) ==> r.totalAmount == data.totalAmount
    ensures !Truthy(data.totalAmount) && Truthy(data.amount) ==> r.totalAmount == data.amount
    ensures !Truthy(data.totalAmount) && !Truthy(data.amount) ==> r.totalAmount == Num(0.0)
    ensures r.pdf.Some? ==> r.pdf.value != "" && (r.pdf.value == data.pdf || r.pdf.value == data.pdfUrl)
    ensures r.pdf.None? <==> data.pdf == "" && data.pdfUrl == ""
    ensures r.statementId.Some? ==> r.statementId == data.id && r.statementId.value != 0
    ensures data.driver.NameAbsent? || data.driver == NameText("") ==> r.driverName == data.driverName
    ensures data.driver.NameText? && data.driver.s != "" ==> r.driverName == data.driver.s
    ensures data.driver.NameObject? ==> r.driverName == data.driver.name
    ensures data.driver.NameOther? ==> r.driverName == ""
    ensures data.company.NameAbsent? || data.company == NameText("") ==>
              r.companyName == (if data.companyName != "" then data.companyName else data.carrierCompany)
    ensures data.company.NameText? && data.company.s != "" ==> r.companyName == data.company.s
    ensures data.company.NameObject? ==> r.companyName == data.company.name
    ensures data.company.NameOther? ==> r.companyName == ""
    ensures r.note == data.note
  {
    DriverInfo(
      NameOf(data.driver, data.driverName),
      NameOf(data.company, if data.companyName != "" then data.companyName else data.carrierCompany),
      Or(Or(data.totalAmount, data.amount), Num(0.0)),
      data.note,
      if data.pdf != "" then Some(data.pdf) else if data.pdfUrl != "" then Some(data.pdfUrl) else None,
      IdOrNull(data.id))
  }

  // ---------------------------------------------------------------------------
  // Calculation units and owner calculations
  // ---------------------------------------------------------------------------

  /** A unit's `truck` field: absent, a bare id, or an object with `id`, `_id` (`altId`) and
      `unit_number`. */
  datatype TruckRef = NoTruck | TruckNum(n: int) | TruckObject(id: Option<int>, altId: Option<int>, unitNumber: string)

  /** A calculation unit as the server returns it. String fields are "" when absent. */
  datatype CalcUnit = CalcUnit(
    id: Option<int>, truck: TruckRef, truckId: Option<int>,
    statement: StatementRef, statementId: Option<int>,
    driver: string, note: string, amount: Value, escrow: Value,
    startDate: string, endDate: string)

  /** A unit with no linked statement (`statement` null or undefined) is a deduction. */
  predicate IsDeduction(u: CalcUnit) {
    u.statement.NoStatement?
  }

  /** An `id` on an owner object: a number or a string. */
  datatype Key = KeyNum(n: int) | KeyText(s: string)

  /** An owner calculation's `owner`: absent, a name, or an object with an optional `id`. */
  datatype Owner = NoOwner | OwnerName(name: string) | OwnerRecord(id: Option<Key>)

  /** An owner calculation. `calculationUnits` and `units` are None when the field is
      absent or not an array. */
  datatype OwnerCalc = OwnerCalc(
    id: Option<int>, owner: Owner, startDate: string, endDate: string,
    calculationUnits: Option<seq<CalcUnit>>, units: Option<seq<CalcUnit>>,
    totalAmount: Value, totalEscrow: Value)

  /** `calc.calculation_units || calc.units || []`. */
  function UnitsOf(c: OwnerCalc): seq<CalcUnit> {
    if c.calculationUnits.Some? then c.calculationUnits.value
    else if c.units.Some? then c.units.value
    else []
  }

  /** What a list endpoint produced: a bare array, a page object (`results` None when
      absent or not an array), null, another value, or a thrown error. */
  datatype ListReply<T> = ArrayBody(items: seq<T>) | PageBody(results: Option<seq<T>>) | NullBody | OtherBody | FailedRequest

  /** The list inside a reply: the array itself, else `results`, else nothing. */
  function ListOf<T>(reply: ListReply<T>): (r: seq<T>)
    ensures reply.ArrayBody? ==> r == reply.items
    ensures reply.PageBody? && reply.results.Some? ==> r == reply.results.value
    ensures !reply.ArrayBody? && !(reply.PageBody? && reply.results.Some?) ==> r == []
  {
    match reply
    case ArrayBody(items) => items
    case PageBody(results) => if results.Some? then results.value else []
    case _ => []
  }

  // ---------------------------------------------------------------------------
  // fetchExistingCalculation
  // ---------------------------------------------------------------------------

  /** `c.owner === owner || c.owner?.id === owner` for a selected owner name. */
  predicate OwnerIs(o: Owner, owner: string) {
    match o
    case OwnerName(name) => name == owner
    case OwnerRecord(id) => id == Some(KeyText(owner))
    case NoOwner => false
  }

  /** The match predicate: same owner, and both dates string-equal. */
  predicate SameCalculation(c: OwnerCalc, owner: string, startDate: string, endDate: string) {
    OwnerIs(c.owner, owner) && c.startDate == startDate && c.endDate == endDate
  }

  function FindCalculation(calcs: seq<OwnerCalc>, owner: string, startDate: string, endDate: string): (r: Option<OwnerCalc>)
    ensures r.Some? ==> r.value in calcs && SameCalculation(r.value, owner, startDate, endDate)
    ensures r.None? <==> forall i :: 0 <= i < |calcs| ==> !SameCalculation(calcs[i], owner, startDate, endDate)
    ensures r.Some? ==> exists i :: 0 <= i < |calcs| && calcs[i] == r.value
                          && forall j :: 0 <= j < i ==> !SameCalculation(calcs[j], owner, startDate, endDate)
  {
    if |calcs| == 0 then None
    else if SameCalculation(calcs[0], owner, startDate, endDate) then Some(calcs[0])
    else
      var r := FindCalculation(calcs[1..], owner, startDate, endDate);
      if r.Some? then
        var i :| 0 <= i < |calcs[1..]| && calcs[1..][i] == r.value
                 && forall j :: 0 <= j < i ==> !SameCalculation(calcs[1..][j], owner, startDate, endDate);
        assert calcs[i + 1] == r.value;
        r
      else r
  }

  /** `fetchExistingCalculation` (src/CreateOwnerDrawer.jsx, and identically src/hooks/useOwner.js):
      the first calculation of the reply that matches owner and both dates; null on no match,
      on a null reply, and on a failed request. */
  function FetchExistingCalculation(reply: ListReply<OwnerCalc>, owner: string, startDate: string, endDate: string): (r: Option<OwnerCalc>)
    ensures reply.FailedRequest? || reply.NullBody? ==> r.None?
    ensures r.Some? ==> r.value in ListOf(reply) && SameCalculation(r.value, owner, startDate, endDate)
    ensures r.None? ==> forall c :: c in ListOf(reply) ==> !SameCalculation(c, owner, startDate, endDate)
    ensures r.Some? ==> exists i :: 0 <= i < |ListOf(reply)| && ListOf(reply)[i] == r.value
                          && forall j :: 0 <= j < i ==> !SameCalculation(ListOf(reply)[j], owner, startDate, endDate)
  {
    FindCalculation(ListOf(reply), owner, startDate, endDate)
  }

  // ---------------------------------------------------------------------------
  // Wire units and formatExistingUnits
  // ---------------------------------------------------------------------------

  /** `Number(x)` as JSON: a number, or null when it was NaN. */
  datatype WireId = WireNum(n: int) | WireNull

  /** One entry of the `units` list of a create/update payload. Optional keys are None when
      the key is not sent. */
  datatype WireUnit = WireUnit(
    truck: WireId, amount: NumText, escrow: NumText,
    driver: Option<string>, driverId: Option<int>, statement: Option<WireId>, note: string)

  /** `unit.truck?.id || unit.truck || unit.truck_id`: a number, an (id-less) truck object,
      or undefined. */
  datatype Derived = DerivedNum(n: int) | DerivedObject | DerivedMissing

  function OrTruckId(truckId: Option<int>): Derived {
    if truckId.Some? then DerivedNum(truckId.value) else DerivedMissing
  }

  /** The truck a server unit refers to, by the source's fallback chain. */
  function TruckKeyOf(u: CalcUnit): (r: Derived)
    ensures u.truck.TruckObject? && TruthyId(u.truck.id) ==> r == DerivedNum(u.truck.id.value)
    ensures u.truck.TruckObject? && !TruthyId(u.truck.id) ==> r == DerivedObject
    ensures u.truck.TruckNum? && u.truck.n != 0 ==> r == DerivedNum(u.truck.n)
    ensures (u.truck.NoTruck? || u.truck == TruckNum(0)) ==> r == OrTruckId(u.truckId)
  {
    match u.truck
    case TruckObject(id, _, _) => if TruthyId(id) then DerivedNum(id.value) else DerivedObject
    case TruckNum(n) => if n != 0 then DerivedNum(n) else OrTruckId(u.truckId)
    case NoTruck => OrTruckId(u.truckId)
  }

  /** `unit.statement?.id || unit.statement || unit.statement_id`, kept only when truthy,
      and sent as `Number(...)`. */
  function StatementOf(u: CalcUnit): (r: Option<WireId>)
    ensures r.Some? && r.value.WireNum? ==> r.value.n != 0
    ensures u.statement.StatementObject? ==> r.Some?
    ensures u.statement.NoStatement? ==> r == (if TruthyId(u.statementId) then Some(WireNum(u.statementId.value)) else None)
  {
    match u.statement
    case StatementObject(id) => if TruthyId(id) then Some(WireNum(id.value)) else Some(WireNull)
    case StatementNum(n) =>
      if n != 0 then Some(WireNum(n))
      else if TruthyId(u.statementId) then Some(WireNum(u.statementId.value)) else None
    case NoStatement => if TruthyId(u.statementId) then Some(WireNum(u.statementId.value)) else None
  }

  /** An existing amount as a string: kept if it is already one, else `String(x || '0.00')`. */
  function ExistingAmount(v: Value): (r: NumText)
    ensures v.Str? ==> r == Text(v.s)
    ensures !Truthy(v) && !v.Str? ==> r == Text("0.00")
    ensures r.Rendered? ==> v == Num(r.r) && r.r != 0.0
  {
    match v
    case Str(s) => Text(s)
    case Num(n) => if n != 0.0 then Rendered(n) else Text("0.00")
    case Absent => Text("0.00")
  }

  /** One existing unit in wire form. */
  function FormatUnit(u: CalcUnit): (w: WireUnit)
    ensures w.truck.WireNum? <==> TruckKeyOf(u).DerivedNum?
    ensures w.truck.WireNum? ==> w.truck.n == TruckKeyOf(u).n
    ensures w.driver.Some? <==> Trim(u.driver) != ""
    ensures w.driver.Some? ==> w.driver.value == Trim(u.driver)
    ensures w.driverId.None?
    ensures w.statement == StatementOf(u)
    ensures w.note == Trim(u.note)
    ensures w.amount == ExistingAmount(u.amount) && w.escrow == ExistingAmount(u.escrow)
  {
    var tk := TruckKeyOf(u);
    WireUnit(
      if tk.DerivedNum? then WireNum(tk.n) else WireNull,
      ExistingAmount(u.amount),
      ExistingAmount(u.escrow),
      if u.driver != "" && Trim(u.driver) != "" then Some(Trim(u.driver)) else None,
      None,
      StatementOf(u),
      if u.note != "" && Trim(u.note) != "" then Trim(u.note) else "")
  }

  /** `formatExistingUnits`: one wire unit per existing unit, same order. */
  function FormatExistingUnits(units: seq<CalcUnit>): (r: seq<WireUnit>)
    ensures |r| == |units|
    ensures forall i :: 0 <= i < |units| ==> r[i] == FormatUnit(units[i])
  {
    if |units| == 0 then [] else [FormatUnit(units[0])] + FormatExistingUnits(units[1..])
  }

  /** The wire truck key of an existing unit, as the merge compares it. */
  lemma FormatKeepsTruckKey(units: seq<CalcUnit>, i: int)
    requires 0 <= i < |units|
    ensures FormatExistingUnits(units)[i].truck.WireNum? <==> TruckKeyOf(units[i]).DerivedNum?
  {
  }
}
