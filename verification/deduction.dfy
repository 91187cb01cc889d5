/** src/DeductionDrawer.jsx: the drawer that adds a deduction (a calculation unit with no
    statement) to one owner's week, or edits one. Covers the statement reply handling of
    `fetchDriverStatement`, the truck selection that feeds it, the form an existing deduction
    opens with, and `handleSubmit` with its checks, amount parsing, payload and PUT/POST
    choice. */
module Deduction {
  import opened Js
  import opened Records
  import UseOwner

  // ---------------------------------------------------------------------------
  // Statement ids
  // ---------------------------------------------------------------------------

  /** What a `??` chain over statement fields can yield: nothing, a number, or a statement
      object that lacks an `id` (the chain stops at the object itself). */
  datatype Sid = SidNull | SidNum(n: int) | SidObject

  predicate SidTruthy(s: Sid) {
    match s
    case SidNull => false
    case SidNum(n) => n != 0
    case SidObject => true
  }

  /** `statement?.id ?? statement ?? statement_id ?? null`. */
  function ChainSid(ref: StatementRef, statementId: Option<int>): (r: Sid)
    ensures r.SidNull? <==> ref.NoStatement? && statementId.None?
    ensures r.SidObject? <==> ref.StatementObject? && ref.id.None?
    ensures ref.StatementObject? && ref.id.Some? ==> r == SidNum(ref.id.value)
    ensures ref.StatementNum? ==> r == SidNum(ref.n)
    ensures ref.NoStatement? && statementId.Some? ==> r == SidNum(statementId.value)
  {
    match ref
    case StatementObject(id) => if id.Some? then SidNum(id.value) else SidObject
    case StatementNum(n) => SidNum(n)
    case NoStatement => if statementId.Some? then SidNum(statementId.value) else SidNull
  }

  /** `Number(statementId)` in the JSON body: a number, or null for the NaN of an object. */
  function SidWire(s: Sid): (w: WireId)
    requires SidTruthy(s)
    ensures w.WireNum? <==> s.SidNum?
    ensures s.SidNum? ==> w == WireNum(s.n)
  {
    if s.SidNum? then WireNum(s.n) else WireNull
  }

  // ---------------------------------------------------------------------------
  // fetchDriverStatement
  // ---------------------------------------------------------------------------

  /** What the drawer keeps of a loaded statement (`driverData`). */
  datatype DriverData = DriverData(driverName: string, amount: Value, escrow: Value, statementId: Sid)

  /** The fields the drawer reads from a statement: the name by field shape,
      `total_amount || amount || 0`, `escrow || total_escrow || 0`, and
      `id ?? statement?.id ?? statement ?? statement_id ?? null`. */
  function FromStatement(s: Statement): (d: DriverData)
    ensures d.driverName == NameOf(s.driver, s.driverName)
    ensures Truthy(s.totalAmount) ==> d.amount == s.totalAmount
    ensures !Truthy(s.totalAmount) && Truthy(s.amount) ==> d.amount == s.amount
    ensures !Truthy(s.totalAmount) && !Truthy(s.amount) ==> d.amount == Num(0.0)
    ensures Truthy(s.escrow) ==> d.escrow == s.escrow
    ensures !Truthy(s.escrow) && Truthy(s.totalEscrow) ==> d.escrow == s.totalEscrow
    ensures !Truthy(s.escrow) && !Truthy(s.totalEscrow) ==> d.escrow == Num(0.0)
    ensures s.id.Some? ==> d.statementId == SidNum(s.id.value)
    ensures s.id.None? ==> d.statementId == ChainSid(s.statement, s.statementId)
  {
    DriverData(
      NameOf(s.driver, s.driverName),
      Or(Or(s.totalAmount, s.amount), Num(0.0)),
      Or(Or(s.escrow, s.totalEscrow), Num(0.0)),
      if s.id.Some? then SidNum(s.id.value) else ChainSid(s.statement, s.statementId))
  }

  /** The calculation the drawer works on. `id` is what the payload sends as `owner`. */
  datatype DeductionCalc = DeductionCalc(id: Option<int>, owner: string, startDate: string, endDate: string)

  /** The form's values. `truck` is the selected option's truck key, if any. */
  datatype Form = Form(truck: Option<int>, driver: string, amount: Value, escrow: Value, note: string)

  /** The drawer's state: the form and the loaded statement. */
  datatype Drawer = Drawer(form: Form, driverData: Option<DriverData>)

  /** `fetchDriverStatement(driverId)` with the reply given: nothing happens without a driver
      id, a calculation or both dates; a statement fills the driver, amount and escrow fields;
      no statement (or a failed request) clears the loaded data and leaves the form. */
  function LoadStatement(d: Drawer, driverId: Option<int>, target: Option<DeductionCalc>, reply: Reply): (r: Drawer)
    ensures !TruthyId(driverId) || target.None? || target.value.startDate == "" || target.value.endDate == "" ==> r == d
    ensures TruthyId(driverId) && target.Some? && target.value.startDate != "" && target.value.endDate != "" ==>
              (RecordOf(reply).None? ==> r == d.(driverData := None))
              && (RecordOf(reply).Some? ==>
                    var data := FromStatement(RecordOf(reply).value);
                    r.driverData == Some(data)
                    && r.form == d.form.(driver := data.driverName, amount := data.amount, escrow := data.escrow))
  {
    if !TruthyId(driverId) || target.None? || target.value.startDate == "" || target.value.endDate == "" then d
    else
      match RecordOf(reply)
      case None => d.(driverData := None)
      case Some(s) =>
        var data := FromStatement(s);
        Drawer(d.form.(driver := data.driverName, amount := data.amount, escrow := data.escrow), Some(data))
  }

  // ---------------------------------------------------------------------------
  // Truck selection
  // ---------------------------------------------------------------------------

  /** `x ?? y`. */
  function Coalesce(x: Option<int>, y: Option<int>): (r: Option<int>)
    ensures x.Some? ==> r == x
    ensures x.None? ==> r == y
  {
    if x.Some? then x else y
  }

  /** The driver id of a selected truck: the list head's or the object's `id ?? _id`, and
      the truck-level `driver_id` when that is falsy. */
  function SelectedDriverId(t: Truck): (r: Option<int>)
    ensures t.driver.DriverList? && |t.driver.entries| > 0 && TruthyId(Coalesce(t.driver.entries[0].id, t.driver.entries[0].altId)) ==>
              r == Coalesce(t.driver.entries[0].id, t.driver.entries[0].altId)
    ensures t.driver.DriverObject? && TruthyId(Coalesce(t.driver.entry.id, t.driver.entry.altId)) ==>
              r == Coalesce(t.driver.entry.id, t.driver.entry.altId)
    ensures t.driver.NoDriver? || t.driver.DriverNumber? || (t.driver.DriverList? && |t.driver.entries| == 0) ==>
              r == (if TruthyId(t.driverId) then t.driverId else None)
    ensures TruthyId(t.driverId) ==> TruthyId(r)
  {
    var fromDriver :=
      match t.driver
      case DriverList(entries) => if |entries| > 0 then Coalesce(entries[0].id, entries[0].altId) else None
      case DriverObject(e) => Coalesce(e.id, e.altId)
      case _ => None;
    if !TruthyId(fromDriver) && TruthyId(t.driverId) then t.driverId else fromDriver
  }

  /** The Select's onChange with the statement reply given. Clearing the select empties the
      driver, amount and escrow; an unknown key changes only the selection; a known truck
      fills the driver names joined by " / " and loads its driver's statement, or clears
      amount and escrow when there is no driver id or no period. */
  function SelectTruck(d: Drawer, trucks: seq<Truck>, value: Option<int>, target: Option<DeductionCalc>, reply: Reply): (r: Drawer)
    ensures r.form.truck == value
    ensures value.None? ==> r.form == d.form.(truck := None, driver := "", amount := Absent, escrow := Absent) && r.driverData.None?
    ensures value.Some? && FindTruck(trucks, value.value).None? ==> r == d.(form := d.form.(truck := value))
    ensures value.Some? && FindTruck(trucks, value.value).Some? && RecordOf(reply).None? ==>
              r.form.driver == Join(UseOwner.OptionNames(FindTruck(trucks, value.value).value), " / ")
    ensures value.Some? && FindTruck(trucks, value.value).Some? &&
            !(TruthyId(SelectedDriverId(FindTruck(trucks, value.value).value)) && target.Some? && target.value.startDate != "" && target.value.endDate != "") ==>
              r.form.amount == Absent && r.form.escrow == Absent && r.driverData.None?
  {
    if value.None? then
      Drawer(d.form.(truck := None, driver := "", amount := Absent, escrow := Absent), None)
    else
      match FindTruck(trucks, value.value)
      case None => d.(form := d.form.(truck := value))
      case Some(t) =>
        var named := d.(form := d.form.(truck := value, driver := Join(UseOwner.OptionNames(t), " / ")));
        var driverId := SelectedDriverId(t);
        if TruthyId(driverId) && target.Some? && target.value.startDate != "" && target.value.endDate != "" then
          LoadStatement(named, driverId, target, reply)
        else
          Drawer(named.form.(amount := Absent, escrow := Absent), None)
  }

  /** When the truck's driver has a statement for the period, the statement's values replace
      the names and the amounts. */
  lemma SelectLoadsStatement(d: Drawer, trucks: seq<Truck>, v: int, target: DeductionCalc, reply: Reply)
    requires FindTruck(trucks, v).Some? && TruthyId(SelectedDriverId(FindTruck(trucks, v).value))
    requires target.startDate != "" && target.endDate != "" && RecordOf(reply).Some?
    ensures SelectTruck(d, trucks, Some(v), Some(target), reply).driverData == Some(FromStatement(RecordOf(reply).value))
    ensures SelectTruck(d, trucks, Some(v), Some(target), reply).form.amount == FromStatement(RecordOf(reply).value).amount
  {
  }

  // ---------------------------------------------------------------------------
  // Opening an existing deduction
  // ---------------------------------------------------------------------------

  /** The truck key an existing deduction preselects: `truck.id || truck._id` of an object,
      the bare number otherwise, when truthy. */
  function EditTruck(t: TruckRef): (r: Option<int>)
    ensures r.Some? ==> r.value != 0
    ensures t.TruckNum? ==> (r.Some? <==> t.n != 0) && (r.Some? ==> r == Some(t.n))
    ensures t.TruckObject? && TruthyId(t.id) ==> r == t.id
    ensures t.TruckObject? && !TruthyId(t.id) && TruthyId(t.altId) ==> r == t.altId
    ensures t.TruckObject? && !TruthyId(t.id) && !TruthyId(t.altId) ==> r.None?
    ensures t.NoTruck? ==> r.None?
  {
    match t
    case NoTruck => None
    case TruckNum(n) => if n != 0 then Some(n) else None
    case TruckObject(id, altId, _) => if TruthyId(id) then id else if TruthyId(altId) then altId else None
  }

  /** The form an existing deduction opens with: `driver || ''`, `amount || null`,
      `escrow || null`, `note || ''`. */
  function EditForm(u: CalcUnit): (f: Form)
    ensures f.truck == EditTruck(u.truck) && f.driver == u.driver && f.note == u.note
    ensures Truthy(u.amount) ==> f.amount == u.amount
    ensures !Truthy(u.amount) ==> f.amount == Absent
    ensures Truthy(u.escrow) ==> f.escrow == u.escrow
    ensures !Truthy(u.escrow) ==> f.escrow == Absent
  {
    Form(EditTruck(u.truck), u.driver,
         if Truthy(u.amount) then u.amount else Absent,
         if Truthy(u.escrow) then u.escrow else Absent,
         u.note)
  }

  // ---------------------------------------------------------------------------
  // handleSubmit
  // ---------------------------------------------------------------------------

  /** The amount a form field sends: 0 for null, undefined and ''; a number as it is; a
      string after dropping every character outside `[0-9.-]`, 0 when that does not parse. */
  function FieldAmount(v: Value): (r: real)
    ensures v == Absent || v == Str("") ==> r == 0.0
    ensures v.Num? ==> r == v.n
    ensures v.Str? ==> r == CleanedValue(Text(v.s))
  {
    match v
    case Absent => 0.0
    case Num(n) => n
    case Str(s) => if s == "" then 0.0 else OrZero(ParseFloat(Clean(s)))
  }

  /** A typed amount with no digit at all is sent as 0. */
  lemma FieldAmountNoDigit(s: string)
    requires forall i :: 0 <= i < |s| ==> !IsDigit(s[i])
    ensures FieldAmount(Str(s)) == 0.0
  {
    ParseNoDigit(Clean(s));
  }

  /** Currency signs, separators and spaces around the digits do not change the amount. */
  lemma FieldAmountDigits(junk: string, ds: string)
    requires |ds| > 0 && AllDigits(ds)
    requires forall i :: 0 <= i < |junk| ==> !IsNumericChar(junk[i])
    ensures FieldAmount(Str(junk + ds)) == DigitsValue(ds) as real
  {
    CleanedIgnoresFormatting(ds, junk);
    assert forall i :: 0 <= i < |ds| ==> IsNumericChar(ds[i]);
    ParseDigits(ds);
  }

  /** Why submit stops before any request. */
  datatype Refusal = MissingCalculation | MissingDates | MissingOwnerId

  /** The calculation-unit body. `truck`, `note` and `statement` are absent when None. */
  datatype UnitPayload = UnitPayload(
    owner: int, driver: string, amount: real, escrow: real, startDate: string, endDate: string,
    truck: Option<int>, note: Option<string>, statement: Option<WireId>)

  datatype Request = Put(unitId: int, body: UnitPayload) | Post(body: UnitPayload)

  datatype Submission = Refused(reason: Refusal) | Send(request: Request)

  /** `driverData?.statementId ?? (deduction?.statement?.id ?? deduction?.statement ??
      deduction?.statement_id ?? null)`. */
  function ResolveSid(data: Option<DriverData>, deduction: Option<CalcUnit>): (r: Sid)
    ensures data.Some? && !data.value.statementId.SidNull? ==> r == data.value.statementId
    ensures (data.None? || data.value.statementId.SidNull?) && deduction.Some? ==>
              r == ChainSid(deduction.value.statement, deduction.value.statementId)
    ensures (data.None? || data.value.statementId.SidNull?) && deduction.None? ==> r == SidNull
  {
    if data.Some? && !data.value.statementId.SidNull? then data.value.statementId
    else if deduction.Some? then ChainSid(deduction.value.statement, deduction.value.statementId)
    else SidNull
  }

  /** `calculationUnitPayload`: the fixed fields always, `truck` when one is selected, the
      trimmed note when it is not blank, the statement when its id is truthy. */
  function Payload(target: DeductionCalc, f: Form, data: Option<DriverData>, deduction: Option<CalcUnit>): (p: UnitPayload)
    requires TruthyId(target.id)
    ensures p.owner == target.id.value && p.driver == f.driver
    ensures p.amount == FieldAmount(f.amount) && p.escrow == FieldAmount(f.escrow)
    ensures p.startDate == target.startDate && p.endDate == target.endDate
    ensures p.truck == f.truck
    ensures p.note.Some? <==> Trim(f.note) != ""
    ensures p.note.Some? ==> p.note.value == Trim(f.note)
    ensures p.statement.Some? <==> SidTruthy(ResolveSid(data, deduction))
    ensures p.statement.Some? ==> p.statement.value == SidWire(ResolveSid(data, deduction))
  {
    var sid := ResolveSid(data, deduction);
    UnitPayload(
      target.id.value, f.driver, FieldAmount(f.amount), FieldAmount(f.escrow), target.startDate, target.endDate,
      f.truck,
      if Trim(f.note) != "" then Some(Trim(f.note)) else None,
      if SidTruthy(sid) then Some(SidWire(sid)) else None)
  }

  /** `handleSubmit`: refuse without a calculation, without both dates or without a truthy
      `calculation.id`; otherwise PUT the payload to an existing deduction's own URL when it
      has a truthy id, else POST it. */
  function Submit(target: Option<DeductionCalc>, f: Form, data: Option<DriverData>, deduction: Option<CalcUnit>): (r: Submission)
    ensures target.None? ==> r == Refused(MissingCalculation)
    ensures target.Some? && (target.value.startDate == "" || target.value.endDate == "") ==> r == Refused(MissingDates)
    ensures r.Refused? <==> target.None? || target.value.startDate == "" || target.value.endDate == "" || !TruthyId(target.value.id)
    ensures r.Send? ==> r.request.body == Payload(target.value, f, data, deduction)
    ensures r.Send? ==> (r.request.Put? <==> deduction.Some? && TruthyId(deduction.value.id))
    ensures r.Send? && r.request.Put? ==> r.request.unitId == deduction.value.id.value
  {
    if target.None? then Refused(MissingCalculation)
    else if target.value.startDate == "" || target.value.endDate == "" then Refused(MissingDates)
    else if !TruthyId(target.value.id) then Refused(MissingOwnerId)
    else
      var body := Payload(target.value, f, data, deduction);
      if deduction.Some? && TruthyId(deduction.value.id) then Send(Put(deduction.value.id.value, body))
      else Send(Post(body))
  }

  /** An edit and a creation of the same unit send the same body; only the method and URL
      differ. */
  lemma PutAndPostSendSameBody(target: DeductionCalc, f: Form, data: Option<DriverData>, u: CalcUnit)
    requires TruthyId(target.id) && target.startDate != "" && target.endDate != "" && TruthyId(u.id)
    ensures Submit(Some(target), f, data, Some(u)) == Send(Put(u.id.value, Payload(target, f, data, Some(u))))
    ensures Submit(Some(target), f, data, Some(u.(id := None))) == Send(Post(Payload(target, f, data, Some(u))))
  {
    assert ResolveSid(data, Some(u.(id := None))) == ResolveSid(data, Some(u));
  }

  /** Opening an existing deduction with numeric amounts and saving it unchanged resends its
      truck, driver, amounts, trimmed note and statement link. */
  lemma UnchangedEditResends(target: DeductionCalc, u: CalcUnit, a: real, e: real)
    requires TruthyId(target.id) && target.startDate != "" && target.endDate != "" && TruthyId(u.id)
    requires u.amount == Num(a) && u.escrow == Num(e)
    ensures var r := Submit(Some(target), EditForm(u), None, Some(u));
            r.Send? && r.request == Put(u.id.value, r.request.body)
            && r.request.body.truck == EditTruck(u.truck)
            && r.request.body.driver == u.driver
            && r.request.body.amount == a && r.request.body.escrow == e
            && (Trim(u.note) != "" ==> r.request.body.note == Some(Trim(u.note)))
            && (SidTruthy(ChainSid(u.statement, u.statementId)) ==>
                  r.request.body.statement == Some(SidWire(ChainSid(u.statement, u.statementId))))
  {
  }
}
