/** The reconciliation logic of src/ViewOwnerCalculationDrawer.jsx: which deductions
    (calculation units with no statement) belong to the viewed week, the list of units the
    drawer shows once deletions, newly added units and the week's deductions are merged,
    the grouping of that list by truck, and the optimistic delete. */
module ViewCalculation {
  import opened Js
  import opened Records

  // ---------------------------------------------------------------------------
  // normalizeDate
  // ---------------------------------------------------------------------------

  /** `normalizeDate`: "" for a falsy date; otherwise the trimmed text cut before its first
      'T' if it has one, else before its first space. */
  function NormalizeDate(d: string): (r: string)
    ensures d == "" ==> r == ""
    ensures 'T' !in r
    ensures |r| <= |Trim(d)| && r == Trim(d)[..|r|]
    ensures d != "" && 'T' in Trim(d) ==> |r| < |Trim(d)| && Trim(d)[|r|] == 'T'
    ensures d != "" && 'T' !in Trim(d) && ' ' in Trim(d) ==> |r| < |Trim(d)| && Trim(d)[|r|] == ' ' && ' ' !in r
    ensures 'T' !in Trim(d) && ' ' !in Trim(d) ==> r == Trim(d)
  {
    if d == "" then ""
    else
      var s := Trim(d);
      if 'T' in s then SplitHead(s, 'T')
      else if ' ' in s then SplitHead(s, ' ')
      else s
  }

  /** A date without whitespace and without 'T' comes back unchanged; in particular a bare
      `YYYY-MM-DD`. */
  lemma NormalizePlainDate(d: string)
    requires NoSpace(d) && 'T' !in d
    ensures NormalizeDate(d) == d
  {
    TrimOfSpaceFree(d);
  }

  /** A bare ISO date is such a date. */
  lemma NormalizeIsoDate(d: string)
    requires |d| == 10 && forall i :: 0 <= i < 10 ==> IsDigit(d[i]) || d[i] == '-'
    ensures NormalizeDate(d) == d
  {
    assert forall i :: 0 <= i < |d| ==> d[i] != 'T' && !IsSpace(d[i]);
    NormalizePlainDate(d);
  }

  /** Normalizing twice changes nothing when the first result has no whitespace. */
  lemma NormalizeIdempotentWhenSpaceFree(d: string)
    requires NoSpace(NormalizeDate(d))
    ensures NormalizeDate(NormalizeDate(d)) == NormalizeDate(d)
  {
    NormalizePlainDate(NormalizeDate(d));
  }

  /** Without that precondition normalizing is not idempotent: "a bTc" gives "a b", which
      gives "a". */
  lemma NormalizeNotIdempotent()
    ensures NormalizeDate("a bTc") == "a b"
    ensures NormalizeDate("a b") == "a"
  {
    var d := "a bTc";
    var e := "a b";
    assert d[..3] == e;
    assert 'T' !in e;
    NormalizeCutAtT(d, 3);
    assert e[..1] == "a";
    assert ' ' !in e[..1];
    NormalizeCutAtSpace(e, 1);
  }

  /** A timestamp with a time part loses it. */
  lemma NormalizeTimestamp()
    ensures NormalizeDate("2024-01-01T00:00:00Z") == "2024-01-01"
  {
    var d := "2024-01-01T00:00:00Z";
    var day := "2024-01-01";
    assert d[..10] == day;
    assert 'T' !in day;
    NormalizeCutAtT(d, 10);
  }

  /** A trimmed date whose first 'T' is at position k normalizes to its first k characters. */
  lemma NormalizeCutAtT(d: string, k: nat)
    requires IsTrimmed(d) && k < |d| && d[k] == 'T' && 'T' !in d[..k]
    ensures NormalizeDate(d) == d[..k]
  {
    TrimOfTrimmed(d);
    assert 'T' in d;
    SplitHeadAt(d, 'T', k);
  }

  /** A trimmed date without 'T' whose first space is at position k normalizes to its first
      k characters. */
  lemma NormalizeCutAtSpace(d: string, k: nat)
    requires IsTrimmed(d) && 'T' !in d && k < |d| && d[k] == ' ' && ' ' !in d[..k]
    ensures NormalizeDate(d) == d[..k]
  {
    TrimOfTrimmed(d);
    assert ' ' in d;
    SplitHeadAt(d, ' ', k);
  }

  // ---------------------------------------------------------------------------
  // The deduction → week map
  // ---------------------------------------------------------------------------

  /** A period: start and end date strings. */
  datatype Week = Week(startDate: string, endDate: string)

  /** One candidate entry of the week map, in insertion order. */
  datatype Entry = Entry(id: int, week: Week)

  /** `if (!map[id]) map[id] = week` over the entries in order: the first entry for an id
      wins, so the map is built by letting earlier entries overwrite later ones. */
  function FirstWins(entries: seq<Entry>): (m: map<int, Week>)
    ensures forall k :: k in m <==> exists e :: e in entries && e.id == k
    ensures forall k :: k in m ==> Entry(k, m[k]) in entries
  {
    if |entries| == 0 then map[]
    else FirstWins(entries[1..])[entries[0].id := entries[0].week]
  }

  /** The week an id is mapped to is the one of its first entry. */
  lemma {:induction false} FirstWinsFirst(entries: seq<Entry>, i: nat)
    requires i < |entries|
    requires forall j :: 0 <= j < i ==> entries[j].id != entries[i].id
    ensures FirstWins(entries)[entries[i].id] == entries[i].week
  {
    if i > 0 {
      FirstWinsFirst(entries[1..], i - 1);
    }
  }

  /** Entries added after an id already has one do not change it. */
  lemma {:induction false} FirstWinsKeepsEarlier(a: seq<Entry>, b: seq<Entry>, k: int)
    requires k in FirstWins(a)
    ensures k in FirstWins(a + b) && FirstWins(a + b)[k] == FirstWins(a)[k]
  {
    assert (a + b)[0] == a[0];
    assert (a + b)[1..] == a[1..] + b;
    if k != a[0].id {
      FirstWinsKeepsEarlier(a[1..], b, k);
    }
  }

  /** `unit && unit.id && statement == null`: a deduction with a truthy id. */
  predicate Keyed(u: CalcUnit) {
    TruthyId(u.id) && IsDeduction(u)
  }

  /** The entries an owner calculation contributes: its deductions, with its own period. */
  function CalcEntries(c: OwnerCalc): (es: seq<Entry>)
    ensures forall e :: e in es ==> e.week == Week(NormalizeDate(c.startDate), NormalizeDate(c.endDate))
    ensures c.calculationUnits.None? ==> es == []
    ensures forall e :: e in es ==> exists u :: u in c.calculationUnits.value && Keyed(u) && u.id == Some(e.id)
    ensures forall u :: c.calculationUnits.Some? && u in c.calculationUnits.value && Keyed(u) ==>
              Entry(u.id.value, Week(NormalizeDate(c.startDate), NormalizeDate(c.endDate))) in es
  {
    if c.calculationUnits.None? then []
    else UnitEntries(c.calculationUnits.value, Week(NormalizeDate(c.startDate), NormalizeDate(c.endDate)))
  }

  function UnitEntries(us: seq<CalcUnit>, w: Week): (es: seq<Entry>)
    ensures forall e :: e in es ==> e.week == w
    ensures forall e :: e in es ==> exists u :: u in us && Keyed(u) && u.id == Some(e.id)
    ensures forall u :: u in us && Keyed(u) ==> Entry(u.id.value, w) in es
  {
    if |us| == 0 then []
    else
      var rest := UnitEntries(us[1..], w);
      if Keyed(us[0]) then [Entry(us[0].id.value, w)] + rest else rest
  }

  function AllCalcEntries(cs: seq<OwnerCalc>): (es: seq<Entry>)
    ensures forall e :: e in es ==> exists c :: c in cs && e in CalcEntries(c)
    ensures forall c, e :: c in cs && e in CalcEntries(c) ==> e in es
  {
    if |cs| == 0 then [] else CalcEntries(cs[0]) + AllCalcEntries(cs[1..])
  }

  /** A deduction with a truthy id and both of its own dates set. */
  predicate DatedDeduction(u: CalcUnit) {
    Keyed(u) && u.startDate != "" && u.endDate != ""
  }

  /** The entry one fetched unit contributes: its own normalized period, when it is a dated
      deduction. */
  function OwnEntry(u: CalcUnit): (es: seq<Entry>)
    ensures DatedDeduction(u) ==> es == [Entry(u.id.value, OwnWeek(u))]
    ensures !DatedDeduction(u) ==> es == []
  {
    if DatedDeduction(u) then [Entry(u.id.value, OwnWeek(u))] else []
  }

  /** The entries the fetched units contribute, in order. */
  function OwnEntries(us: seq<CalcUnit>): (es: seq<Entry>)
    ensures forall e :: e in es ==> exists u :: u in us && DatedDeduction(u) && u.id == Some(e.id) && e.week == OwnWeek(u)
    ensures forall u :: u in us && DatedDeduction(u) ==> Entry(u.id.value, OwnWeek(u)) in es
  {
    if |us| == 0 then []
    else
      assert forall x :: x in us <==> x == us[0] || x in us[1..];
      OwnEntry(us[0]) + OwnEntries(us[1..])
  }

  /** `deductionIdToWeekMap`: the owner calculations' deductions first, then the fetched
      units' own periods; the first writer wins. */
  function WeekMap(calcs: seq<OwnerCalc>, units: seq<CalcUnit>): (m: map<int, Week>)
    ensures forall k :: k in m ==> k != 0
    ensures forall c, u :: c in calcs && c.calculationUnits.Some? && u in c.calculationUnits.value && Keyed(u) ==>
              u.id.value in m
    ensures forall u :: u in units && DatedDeduction(u) ==> u.id.value in m
  {
    var es := AllCalcEntries(calcs) + OwnEntries(units);
    assert forall e :: e in es ==> e.id != 0;
    forall c, u | c in calcs && c.calculationUnits.Some? && u in c.calculationUnits.value && Keyed(u)
      ensures exists e :: e in es && e.id == u.id.value
    {
      var e := Entry(u.id.value, Week(NormalizeDate(c.startDate), NormalizeDate(c.endDate)));
      assert e in CalcEntries(c);
      assert e in es;
    }
    forall u | u in units && DatedDeduction(u)
      ensures exists e :: e in es && e.id == u.id.value
    {
      var e := Entry(u.id.value, OwnWeek(u));
      assert e in OwnEntries(units);
      assert e in es;
    }
    FirstWins(es)
  }

  /** The parent period wins: a deduction listed in an owner calculation is mapped to that
      calculation's period, whatever dates the unit carries itself. */
  lemma ParentPeriodWins(calcs: seq<OwnerCalc>, units: seq<CalcUnit>, k: int)
    requires k in FirstWins(AllCalcEntries(calcs))
    ensures k in WeekMap(calcs, units)
    ensures WeekMap(calcs, units)[k] == FirstWins(AllCalcEntries(calcs))[k]
    ensures exists c :: c in calcs && WeekMap(calcs, units)[k] == Week(NormalizeDate(c.startDate), NormalizeDate(c.endDate))
  {
    FirstWinsKeepsEarlier(AllCalcEntries(calcs), OwnEntries(units), k);
    var e := Entry(k, FirstWins(AllCalcEntries(calcs))[k]);
    var c :| c in calcs && e in CalcEntries(c);
  }

  /** The week of the first entry for `k`, if any: what `FirstWins` keeps for `k`. */
  function FirstWeek(entries: seq<Entry>, k: int): Option<Week> {
    if |entries| == 0 then None
    else if entries[0].id == k then Some(entries[0].week)
    else FirstWeek(entries[1..], k)
  }

  /** The map keeps exactly the first entry of each id. */
  lemma {:induction false} FirstWinsIsFirstWeek(entries: seq<Entry>, k: int)
    ensures k in FirstWins(entries) <==> FirstWeek(entries, k).Some?
    ensures k in FirstWins(entries) ==> FirstWins(entries)[k] == FirstWeek(entries, k).value
  {
    if |entries| > 0 {
      FirstWinsIsFirstWeek(entries[1..], k);
    }
  }

  /** Entries for other ids in front do not change the first entry for `k`. */
  lemma {:induction false} FirstWeekSkip(a: seq<Entry>, b: seq<Entry>, k: int)
    requires forall e :: e in a ==> e.id != k
    ensures FirstWeek(a + b, k) == FirstWeek(b, k)
  {
    if |a| > 0 {
      assert (a + b)[0] == a[0] && (a + b)[1..] == a[1..] + b;
      assert a[0] in a;
      assert forall e :: e in a[1..] ==> e in a;
      FirstWeekSkip(a[1..], b, k);
    } else {
      assert a + b == b;
    }
  }

  /** A unit with another id in front does not change the first entry for `k`. */
  lemma OwnEntriesSkipHead(us: seq<CalcUnit>, k: int)
    requires |us| > 0 && us[0].id != Some(k)
    ensures FirstWeek(OwnEntries(us), k) == FirstWeek(OwnEntries(us[1..]), k)
  {
    assert OwnEntries(us) == OwnEntry(us[0]) + OwnEntries(us[1..]);
    FirstWeekSkip(OwnEntry(us[0]), OwnEntries(us[1..]), k);
  }

  /** A dated keyed unit in front gives the first entry for its id. */
  lemma OwnEntriesHead(us: seq<CalcUnit>)
    requires |us| > 0 && DatedDeduction(us[0])
    ensures FirstWeek(OwnEntries(us), us[0].id.value) == Some(OwnWeek(us[0]))
  {
    assert OwnEntries(us) == [Entry(us[0].id.value, OwnWeek(us[0]))] + OwnEntries(us[1..]);
  }

  /** A dated keyed unit's first entry among the fetched units' entries is its own period when
      no earlier unit has its id. */
  lemma {:induction false} OwnEntriesFirst(us: seq<CalcUnit>, i: nat)
    requires i < |us| && DatedDeduction(us[i])
    requires forall j :: 0 <= j < i ==> us[j].id != us[i].id
    ensures FirstWeek(OwnEntries(us), us[i].id.value) == Some(OwnWeek(us[i]))
  {
    if i == 0 {
      OwnEntriesHead(us);
    } else {
      var tail := us[1..];
      assert tail[i - 1] == us[i];
      forall j | 0 <= j < i - 1 ensures tail[j].id != tail[i - 1].id {
        assert tail[j] == us[j + 1];
      }
      OwnEntriesFirst(tail, i - 1);
      OwnEntriesSkipHead(us, us[i].id.value);
    }
  }

  /** The own-period fallback: a dated keyed unit that no owner calculation lists, and that no
      earlier unit shares an id with, is mapped to its own normalized period. */
  lemma OwnPeriodFallback(calcs: seq<OwnerCalc>, units: seq<CalcUnit>, i: nat)
    requires i < |units| && DatedDeduction(units[i])
    requires !MatchesOwnerCalc(calcs, units[i])
    requires forall j :: 0 <= j < i ==> units[j].id != units[i].id
    ensures units[i].id.value in WeekMap(calcs, units)
    ensures WeekMap(calcs, units)[units[i].id.value] == OwnWeek(units[i])
  {
    var u := units[i];
    OwnEntriesFirst(units, i);
    forall e | e in AllCalcEntries(calcs) ensures e.id != u.id.value {
      var c :| c in calcs && e in CalcEntries(c);
      var cu :| cu in c.calculationUnits.value && Keyed(cu) && cu.id == Some(e.id);
    }
    FirstWeekSkip(AllCalcEntries(calcs), OwnEntries(units), u.id.value);
    FirstWinsIsFirstWeek(AllCalcEntries(calcs) + OwnEntries(units), u.id.value);
  }

  /** The week-map entry for a unit's id, if any. */
  function WeekOf(m: map<int, Week>, id: Option<int>): (r: Option<Week>)
    ensures r.Some? ==> id.Some? && id.value in m && r.value == m[id.value]
    ensures id.Some? && id.value in m ==> r.Some?
  {
    if id.Some? && id.value in m then Some(m[id.value]) else None
  }

  // ---------------------------------------------------------------------------
  // Appending units whose id is new
  // ---------------------------------------------------------------------------

  predicate HasId(acc: seq<CalcUnit>, id: Option<int>) {
    exists i :: 0 <= i < |acc| && acc[i].id == id
  }

  /** `xs.forEach(x => { if (!acc.find(d => d.id === x.id)) acc.push(x) })`. */
  function AppendNewIds(acc: seq<CalcUnit>, xs: seq<CalcUnit>): (r: seq<CalcUnit>)
    ensures |acc| <= |r| <= |acc| + |xs|
    ensures r[..|acc|] == acc
    ensures forall i :: |acc| <= i < |r| ==> r[i] in xs
    decreases |xs|
  {
    if |xs| == 0 then acc
    else
      var next := if HasId(acc, xs[0].id) then acc else acc + [xs[0]];
      var r := AppendNewIds(next, xs[1..]);
      assert r[..|acc|] == r[..|next|][..|acc|];
      r
  }

  /** Every unit appended has an id not present before it. */
  lemma {:induction false} AppendedAreNew(acc: seq<CalcUnit>, xs: seq<CalcUnit>)
    ensures var r := AppendNewIds(acc, xs);
            forall i :: |acc| <= i < |r| ==> !HasId(r[..i], r[i].id)
    decreases |xs|
  {
    if |xs| > 0 {
      var next := if HasId(acc, xs[0].id) then acc else acc + [xs[0]];
      AppendedAreNew(next, xs[1..]);
      var r := AppendNewIds(acc, xs);
      assert r == AppendNewIds(next, xs[1..]);
      if next != acc {
        FirstAppendedIsNew(acc, xs[0], r);
      }
    }
  }

  /** A unit pushed right after `acc` because its id was absent is new at its position. */
  lemma FirstAppendedIsNew(acc: seq<CalcUnit>, x: CalcUnit, r: seq<CalcUnit>)
    requires !HasId(acc, x.id)
    requires |acc| < |r| && r[..|acc| + 1] == acc + [x]
    ensures !HasId(r[..|acc|], r[|acc|].id)
  {
    assert r[..|acc|] == r[..|acc| + 1][..|acc|];
    assert r[|acc|] == r[..|acc| + 1][|acc|];
  }

  /** No unit of `xs` is lost: each has its id somewhere in the result. */
  lemma {:induction false} AppendCoversIds(acc: seq<CalcUnit>, xs: seq<CalcUnit>, x: CalcUnit)
    requires x in xs || HasId(acc, x.id)
    ensures HasId(AppendNewIds(acc, xs), x.id)
    decreases |xs|
  {
    var r := AppendNewIds(acc, xs);
    if |xs| == 0 {
    } else {
      var next := if HasId(acc, xs[0].id) then acc else acc + [xs[0]];
      assert HasId(acc, x.id) ==> HasId(next, x.id) by {
        if HasId(acc, x.id) {
          var i :| 0 <= i < |acc| && acc[i].id == x.id;
          assert next[i] == acc[i];
        }
      }
      if x == xs[0] {
        assert HasId(next, x.id) by {
          if next != acc { assert next[|acc|] == x; }
        }
      } else if !HasId(acc, x.id) {
        var i :| 0 <= i < |xs| && xs[i] == x;
        assert xs[1..][i - 1] == x;
      }
      AppendCoversIds(next, xs[1..], x);
    }
  }

  predicate DistinctIds(us: seq<CalcUnit>) {
    forall i, j :: 0 <= i < j < |us| ==> us[i].id != us[j].id
  }

  /** Without a starting list the appended units have pairwise distinct ids. */
  lemma DedupDistinct(xs: seq<CalcUnit>)
    ensures DistinctIds(AppendNewIds([], xs))
  {
    var r := AppendNewIds([], xs);
    AppendedAreNew([], xs);
    forall i, j | 0 <= i < j < |r| ensures r[i].id != r[j].id {
      assert !HasId(r[..j], r[j].id);
      assert r[..j][i] == r[i];
    }
  }

  // ---------------------------------------------------------------------------
  // fetchDeductions
  // ---------------------------------------------------------------------------

  /** The calculation the drawer shows: one owner calculation, or a period view grouping
      several (`calculations`). String fields are "" when absent. */
  datatype ViewedCalc = ViewedCalc(
    id: Option<int>, owner: string, startDate: string, endDate: string,
    calculations: Option<seq<OwnerCalc>>, calculationUnits: Option<seq<CalcUnit>>)

  predicate OwnerTruthy(o: Owner) {
    match o
    case NoOwner => false
    case OwnerName(name) => name != ""
    case OwnerRecord(_) => true
  }

  /** `calculation.owner || calculations[0].owner` is truthy: the name the owner-calculation
      search needs. */
  predicate HasOwnerName(v: ViewedCalc) {
    v.owner != "" || (v.calculations.Some? && |v.calculations.value| > 0 && OwnerTruthy(v.calculations.value[0].owner))
  }

  /** Some owner calculation lists a unit with the same id (`cu.id === unit.id`). */
  predicate MatchesOwnerCalc(calcs: seq<OwnerCalc>, u: CalcUnit) {
    exists c, cu :: c in calcs && c.calculationUnits.Some? && cu in c.calculationUnits.value && cu.id == u.id
  }

  /** The week map places the unit in the viewed week, comparing trimmed dates. */
  predicate MatchesWeek(m: map<int, Week>, u: CalcUnit, expected: Week) {
    var w := WeekOf(m, u.id);
    w.Some? && Trim(w.value.startDate) == Trim(expected.startDate) && Trim(w.value.endDate) == Trim(expected.endDate)
  }

  /** The unit's own normalized period, when both of its dates are set. */
  function OwnWeek(u: CalcUnit): (r: Week)
    ensures u.startDate == "" || u.endDate == "" ==> r == Week("", "")
  {
    if u.startDate != "" && u.endDate != "" then Week(NormalizeDate(u.startDate), NormalizeDate(u.endDate))
    else Week("", "")
  }

  /** The date check of the filter: the unit's own normalized dates when both are non-empty,
      else its week-map entry, else no match. */
  predicate DatesMatch(m: map<int, Week>, u: CalcUnit, expected: Week) {
    var own := OwnWeek(u);
    if own.startDate != "" && own.endDate != "" then own == expected
    else MatchesWeek(m, u, expected)
  }

  /** The predicate of `filteredDeductions`. */
  predicate Keep(calcs: seq<OwnerCalc>, m: map<int, Week>, u: CalcUnit, expected: Week) {
    IsDeduction(u) && (MatchesOwnerCalc(calcs, u) || MatchesWeek(m, u, expected)) && DatesMatch(m, u, expected)
  }

  /** `filteredDeductions`: the fetched units that pass the filter, in order. */
  function FilteredDeductions(calcs: seq<OwnerCalc>, m: map<int, Week>, units: seq<CalcUnit>, expected: Week): (r: seq<CalcUnit>)
    ensures forall u :: u in r <==> u in units && Keep(calcs, m, u, expected)
    ensures |r| <= |units|
  {
    if |units| == 0 then []
    else
      var rest := FilteredDeductions(calcs, m, units[1..], expected);
      assert forall u :: u in units <==> u == units[0] || u in units[1..];
      if Keep(calcs, m, units[0], expected) then [units[0]] + rest else rest
  }

  lemma ConsSplit<T>(a: seq<T>, b: seq<T>)
    requires |a| > 0
    ensures (a + b)[0] == a[0] && (a + b)[1..] == a[1..] + b
  {
  }

  lemma ConcatAssoc<T>(x: seq<T>, y: seq<T>, z: seq<T>)
    ensures x + (y + z) == (x + y) + z
  {
  }

  /** The filter's first step: the first unit when it passes, then the filtered rest. */
  lemma FilteredHead(calcs: seq<OwnerCalc>, m: map<int, Week>, us: seq<CalcUnit>, expected: Week)
    requires |us| > 0
    ensures FilteredDeductions(calcs, m, us, expected) ==
            (if Keep(calcs, m, us[0], expected) then [us[0]] else []) + FilteredDeductions(calcs, m, us[1..], expected)
  {
  }

  /** The filter keeps the fetched order: it distributes over concatenation. */
  lemma {:induction false} FilteredAppend(calcs: seq<OwnerCalc>, m: map<int, Week>, a: seq<CalcUnit>, b: seq<CalcUnit>, expected: Week)
    ensures FilteredDeductions(calcs, m, a + b, expected) ==
            FilteredDeductions(calcs, m, a, expected) + FilteredDeductions(calcs, m, b, expected)
  {
    if |a| == 0 {
      assert a + b == b;
    } else {
      var h := if Keep(calcs, m, a[0], expected) then [a[0]] else [];
      var fa := FilteredDeductions(calcs, m, a[1..], expected);
      var fb := FilteredDeductions(calcs, m, b, expected);
      ConsSplit(a, b);
      FilteredHead(calcs, m, a + b, expected);
      FilteredHead(calcs, m, a, expected);
      FilteredAppend(calcs, m, a[1..], b, expected);
      ConcatAssoc(h, fa, fb);
    }
  }

  /** A unit with dates of its own is kept only when they are the viewed week's; one without
      is kept only when its week-map entry is the viewed week. */
  lemma KeptIsInViewedWeek(calcs: seq<OwnerCalc>, m: map<int, Week>, u: CalcUnit, expected: Week)
    requires Keep(calcs, m, u, expected)
    ensures IsDeduction(u)
    ensures OwnWeek(u).startDate != "" && OwnWeek(u).endDate != "" ==> OwnWeek(u) == expected
    ensures OwnWeek(u).startDate == "" || OwnWeek(u).endDate == "" ==> MatchesWeek(m, u, expected)
  {
  }

  /** A unit whose own period is not the viewed one is dropped even when an owner
      calculation of the viewed week lists it. */
  lemma OwnDatesOverrideOwnerCalc(calcs: seq<OwnerCalc>, m: map<int, Week>, u: CalcUnit, expected: Week)
    requires OwnWeek(u).startDate != "" && OwnWeek(u).endDate != "" && OwnWeek(u) != expected
    ensures !Keep(calcs, m, u, expected)
  {
  }

  /** The deductions with a truthy id of a list of units, in order. */
  function KeyedOf(us: seq<CalcUnit>): (r: seq<CalcUnit>)
    ensures forall u :: u in r <==> u in us && Keyed(u)
  {
    if |us| == 0 then []
    else
      assert forall u :: u in us <==> u == us[0] || u in us[1..];
      if Keyed(us[0]) then [us[0]] + KeyedOf(us[1..]) else KeyedOf(us[1..])
  }

  /** The calculation's period is the viewed week. */
  predicate InWeek(c: OwnerCalc, expected: Week) {
    NormalizeDate(c.startDate) == expected.startDate && NormalizeDate(c.endDate) == expected.endDate
  }

  /** The keyed deductions of the period view's calculations whose period is the viewed week. */
  function WeekCalcUnits(cs: seq<OwnerCalc>, expected: Week): (r: seq<CalcUnit>)
    ensures forall u :: u in r ==> Keyed(u) && exists c :: c in cs && InWeek(c, expected) && c.calculationUnits.Some? && u in c.calculationUnits.value
    ensures forall c, u :: c in cs && InWeek(c, expected) && c.calculationUnits.Some? && u in c.calculationUnits.value && Keyed(u) ==>
              u in r
  {
    if |cs| == 0 then []
    else
      var c := cs[0];
      var here := if InWeek(c, expected) && c.calculationUnits.Some? then KeyedOf(c.calculationUnits.value) else [];
      var rest := WeekCalcUnits(cs[1..], expected);
      forall u | u in here + rest
        ensures Keyed(u) && exists c :: c in cs && InWeek(c, expected) && c.calculationUnits.Some? && u in c.calculationUnits.value
      {
        if u in here {
          assert c in cs;
        } else {
          var c' :| c' in cs[1..] && InWeek(c', expected) && c'.calculationUnits.Some? && u in c'.calculationUnits.value;
          assert c' in cs;
        }
      }
      assert forall x :: x in cs <==> x == c || x in cs[1..];
      here + rest
  }

  /** `calculationDeductions`: the deductions embedded in the viewed calculation itself, one
      per id. A single calculation's own period is the viewed week by construction. */
  function EmbeddedDeductions(v: ViewedCalc, expected: Week): (r: seq<CalcUnit>)
    ensures v.calculations.None? && v.calculationUnits.None? ==> r == []
    ensures forall u :: u in r ==> Keyed(u)
    ensures DistinctIds(r)
    ensures v.calculations.Some? ==>
              forall c, u :: (c in v.calculations.value && InWeek(c, expected) && c.calculationUnits.Some?
                              && u in c.calculationUnits.value && Keyed(u)) ==> HasId(r, u.id)
    ensures v.calculations.None? && v.calculationUnits.Some? ==>
              forall u :: u in v.calculationUnits.value && Keyed(u) ==> HasId(r, u.id)
    ensures v.calculations.None? && v.calculationUnits.Some? ==>
              forall u :: u in r ==> u in v.calculationUnits.value
  {
    var source := if v.calculations.Some? then WeekCalcUnits(v.calculations.value, expected)
                  else if v.calculationUnits.Some? then KeyedOf(v.calculationUnits.value)
                  else [];
    DedupDistinct(source);
    var r := AppendNewIds([], source);
    EmbeddedCoversSource(source);
    assert forall u :: u in r ==> u in source;
    r
  }

  /** Collecting from an empty list keeps every source unit's id. */
  lemma EmbeddedCoversSource(source: seq<CalcUnit>)
    ensures forall u :: u in source ==> HasId(AppendNewIds([], source), u.id)
  {
    forall u | u in source ensures HasId(AppendNewIds([], source), u.id) {
      AppendCoversIds([], source, u);
    }
  }

  /** The keyed fetched deductions whose week-map entry is the viewed week. */
  function WeekApiUnits(m: map<int, Week>, units: seq<CalcUnit>, expected: Week): (r: seq<CalcUnit>)
    ensures forall u :: u in r <==> u in units && Keyed(u) && MatchesWeek(m, u, expected)
  {
    if |units| == 0 then []
    else
      var rest := WeekApiUnits(m, units[1..], expected);
      assert forall u :: u in units <==> u == units[0] || u in units[1..];
      if Keyed(units[0]) && MatchesWeek(m, units[0], expected) then [units[0]] + rest else rest
  }

  /** `allDeductions`: the filtered units, then the embedded deductions with a new id, then
      the week-matching fetched deductions with a new id. */
  function CombineDeductions(filtered: seq<CalcUnit>, embedded: seq<CalcUnit>, api: seq<CalcUnit>): (r: seq<CalcUnit>)
    ensures |filtered| <= |r| && r[..|filtered|] == filtered
    ensures forall i :: |filtered| <= i < |r| ==> r[i] in embedded || r[i] in api
  {
    var a := AppendNewIds(filtered, embedded);
    var r := AppendNewIds(a, api);
    assert r[..|filtered|] == r[..|a|][..|filtered|];
    assert forall i :: |filtered| <= i < |a| ==> r[i] == a[i];
    r
  }

  /** No embedded or week-matching deduction is lost: each has its id in the combination. */
  lemma CombineCoversIds(filtered: seq<CalcUnit>, embedded: seq<CalcUnit>, api: seq<CalcUnit>, x: CalcUnit)
    requires x in embedded || x in api
    ensures HasId(CombineDeductions(filtered, embedded, api), x.id)
  {
    var a := AppendNewIds(filtered, embedded);
    if x in embedded {
      AppendCoversIds(filtered, embedded, x);
    }
    AppendCoversIds(a, api, x);
  }

  /** `fetchDeductions`: the deductions of the viewed week, or [] when the calculation, its
      dates or its owner name are missing, when a request fails (the catch), or when no
      owner calculation comes back. */
  function FetchDeductions(view: Option<ViewedCalc>, ownerCalcs: ListReply<OwnerCalc>, unitsReply: ListReply<CalcUnit>): (r: seq<CalcUnit>)
    ensures view.None? ==> r == []
    ensures view.Some? && (view.value.startDate == "" || view.value.endDate == "") ==> r == []
    ensures view.Some? && !HasOwnerName(view.value) ==> r == []
    ensures ownerCalcs.FailedRequest? || unitsReply.FailedRequest? || ListOf(ownerCalcs) == [] ==> r == []
    ensures forall u :: u in r ==> IsDeduction(u)
  {
    if view.None? then []
    else
      var v := view.value;
      if v.startDate == "" || v.endDate == "" || !HasOwnerName(v) then []
      else if ownerCalcs.FailedRequest? then []
      else
        var calcs := ListOf(ownerCalcs);
        if |calcs| == 0 || unitsReply.FailedRequest? then []
        else WeekDeductions(v, calcs, ListOf(unitsReply))
  }

  /** The combination `fetchDeductions` computes once both requests succeeded. */
  function WeekDeductions(v: ViewedCalc, calcs: seq<OwnerCalc>, units: seq<CalcUnit>): (r: seq<CalcUnit>)
    ensures forall u :: u in r ==> IsDeduction(u)
  {
    var expected := Week(NormalizeDate(v.startDate), NormalizeDate(v.endDate));
    var m := WeekMap(calcs, units);
    var filtered := FilteredDeductions(calcs, m, units, expected);
    var embedded := EmbeddedDeductions(v, expected);
    var api := WeekApiUnits(m, units, expected);
    var r := CombineDeductions(filtered, embedded, api);
    forall i | 0 <= i < |r| ensures IsDeduction(r[i]) {
      if i < |filtered| {
        assert r[i] == r[..|filtered|][i] == filtered[i];
        assert filtered[i] in filtered;
      } else {
        assert r[i] in embedded || r[i] in api;
        assert Keyed(r[i]);
      }
    }
    r
  }

  /** Every deduction returned belongs to the viewed week: the filter's date check holds for
      it, or the viewed calculation embeds it for that week, or its week-map entry is that
      week. */
  lemma FetchedInViewedWeek(v: ViewedCalc, ownerCalcs: ListReply<OwnerCalc>, unitsReply: ListReply<CalcUnit>, u: CalcUnit)
    requires u in FetchDeductions(Some(v), ownerCalcs, unitsReply)
    ensures var calcs := ListOf(ownerCalcs);
            var units := ListOf(unitsReply);
            var expected := Week(NormalizeDate(v.startDate), NormalizeDate(v.endDate));
            var m := WeekMap(calcs, units);
            (u in units && Keep(calcs, m, u, expected))
            || u in EmbeddedDeductions(v, expected)
            || (u in units && Keyed(u) && MatchesWeek(m, u, expected))
  {
    FetchedIsWeek(v, ownerCalcs, unitsReply);
    WeekDeductionsInWeek(v, ListOf(ownerCalcs), ListOf(unitsReply), u);
  }

  /** A non-empty fetch is the combination of the two replies. */
  lemma FetchedIsWeek(v: ViewedCalc, ownerCalcs: ListReply<OwnerCalc>, unitsReply: ListReply<CalcUnit>)
    requires FetchDeductions(Some(v), ownerCalcs, unitsReply) != []
    ensures FetchDeductions(Some(v), ownerCalcs, unitsReply) == WeekDeductions(v, ListOf(ownerCalcs), ListOf(unitsReply))
  {
  }

  /** Each unit of the combination passed the filter, is embedded for the week, or is a
      week-matching fetched deduction. */
  lemma WeekDeductionsInWeek(v: ViewedCalc, calcs: seq<OwnerCalc>, units: seq<CalcUnit>, u: CalcUnit)
    requires u in WeekDeductions(v, calcs, units)
    ensures var expected := Week(NormalizeDate(v.startDate), NormalizeDate(v.endDate));
            var m := WeekMap(calcs, units);
            (u in units && Keep(calcs, m, u, expected))
            || u in EmbeddedDeductions(v, expected)
            || (u in units && Keyed(u) && MatchesWeek(m, u, expected))
  {
    var expected := Week(NormalizeDate(v.startDate), NormalizeDate(v.endDate));
    var m := WeekMap(calcs, units);
    var filtered := FilteredDeductions(calcs, m, units, expected);
    var embedded := EmbeddedDeductions(v, expected);
    var api := WeekApiUnits(m, units, expected);
    assert CombineDeductions(filtered, embedded, api) == WeekDeductions(v, calcs, units);
    CombineSources(filtered, embedded, api, u);
  }

  /** Every combined unit comes from one of the three lists. */
  lemma CombineSources(filtered: seq<CalcUnit>, embedded: seq<CalcUnit>, api: seq<CalcUnit>, u: CalcUnit)
    requires u in CombineDeductions(filtered, embedded, api)
    ensures u in filtered || u in embedded || u in api
  {
    var r := CombineDeductions(filtered, embedded, api);
    var i :| 0 <= i < |r| && r[i] == u;
    if i < |filtered| {
      assert r[..|filtered|][i] == u;
    }
  }

  // ---------------------------------------------------------------------------
  // The units on screen
  // ---------------------------------------------------------------------------

  /** What the drawer keeps between renders: the ids deleted optimistically, the deductions
      of the week, and the units added since it opened. */
  datatype ViewState = ViewState(deleted: set<int>, deductions: seq<CalcUnit>, newlyAdded: seq<CalcUnit>)

  /** `deletedUnitIds.has(unit.id)`. */
  predicate IsDeleted(deleted: set<int>, id: Option<int>) {
    id.Some? && id.value in deleted
  }

  /** The units that are not deleted, in order. */
  function Visible(deleted: set<int>, us: seq<CalcUnit>): (r: seq<CalcUnit>)
    ensures forall u :: u in r <==> u in us && !IsDeleted(deleted, u.id)
  {
    if |us| == 0 then []
    else
      assert forall u :: u in us <==> u == us[0] || u in us[1..];
      var rest := Visible(deleted, us[1..]);
      if IsDeleted(deleted, us[0].id) then rest else [us[0]] + rest
  }

  /** `calculationsList` flattened: the units of every calculation of a period view, or the
      viewed calculation's own units. */
  function StoredUnits(v: ViewedCalc): (r: seq<CalcUnit>)
    ensures v.calculations.None? && v.calculationUnits.Some? ==> r == v.calculationUnits.value
    ensures v.calculations.None? && v.calculationUnits.None? ==> r == []
    ensures v.calculations.Some? ==> forall u :: u in r <==>
              exists c :: c in v.calculations.value && c.calculationUnits.Some? && u in c.calculationUnits.value
  {
    if v.calculations.Some? then CalcsUnits(v.calculations.value)
    else if v.calculationUnits.Some? then v.calculationUnits.value
    else []
  }

  function CalcsUnits(cs: seq<OwnerCalc>): (r: seq<CalcUnit>)
    ensures forall u :: u in r <==> exists c :: c in cs && c.calculationUnits.Some? && u in c.calculationUnits.value
  {
    if |cs| == 0 then []
    else
      var here := if cs[0].calculationUnits.Some? then cs[0].calculationUnits.value else [];
      assert forall c :: c in cs <==> c == cs[0] || c in cs[1..];
      here + CalcsUnits(cs[1..])
  }

  /** The position of the first unit with this id, or -1 (`findIndex`). */
  function FindIndex(us: seq<CalcUnit>, id: Option<int>): (i: int)
    ensures -1 <= i < |us|
    ensures i >= 0 ==> us[i].id == id && forall j :: 0 <= j < i ==> us[j].id != id
    ensures i == -1 <==> !HasId(us, id)
  {
    if |us| == 0 then -1
    else if us[0].id == id then 0
    else
      var k := FindIndex(us[1..], id);
      assert forall j :: 0 < j < |us| ==> us[j] == us[1..][j - 1];
      if k == -1 then -1 else k + 1
  }

  /** A week deduction replaces the first unit with its id, or is appended. */
  function Upsert(acc: seq<CalcUnit>, d: CalcUnit): (r: seq<CalcUnit>)
    ensures d in r
    ensures forall u :: u in r ==> u in acc || u == d
    ensures forall u :: u in acc && u.id != d.id ==> u in r
    ensures HasId(acc, d.id) ==> |r| == |acc|
    ensures !HasId(acc, d.id) ==> r == acc + [d]
  {
    var i := FindIndex(acc, d.id);
    if i >= 0 then
      var r := acc[i := d];
      assert r[i] == d;
      assert forall u :: u in acc && u.id != d.id ==> u in r by {
        forall u | u in acc && u.id != d.id ensures u in r {
          var j :| 0 <= j < |acc| && acc[j] == u;
          assert r[j] == u;
        }
      }
      r
    else acc + [d]
  }

  function UpsertAll(acc: seq<CalcUnit>, ds: seq<CalcUnit>): (r: seq<CalcUnit>)
    ensures forall u :: u in r ==> u in acc || u in ds
    decreases |ds|
  {
    if |ds| == 0 then acc
    else
      assert forall d :: d in ds[1..] ==> d in ds;
      UpsertAll(Upsert(acc, ds[0]), ds[1..])
  }

  /** Every deduction upserted has its id on screen afterwards. */
  lemma {:induction false} UpsertAllCovers(acc: seq<CalcUnit>, ds: seq<CalcUnit>, d: CalcUnit)
    requires d in ds
    ensures HasId(UpsertAll(acc, ds), d.id)
    decreases |ds|
  {
    var next := Upsert(acc, ds[0]);
    if d == ds[0] {
      UpsertKeepsIds(next, ds[1..], d);
    } else {
      assert d in ds[1..];
      UpsertAllCovers(next, ds[1..], d);
    }
  }

  /** A unit whose id is on screen stays on screen by id through later upserts. */
  lemma {:induction false} UpsertKeepsIds(acc: seq<CalcUnit>, ds: seq<CalcUnit>, x: CalcUnit)
    requires x in acc
    ensures HasId(UpsertAll(acc, ds), x.id)
    decreases |ds|
  {
    if |ds| == 0 {
      var i :| 0 <= i < |acc| && acc[i] == x;
    } else {
      var next := Upsert(acc, ds[0]);
      if x.id == ds[0].id {
        UpsertKeepsIds(next, ds[1..], ds[0]);
      } else {
        UpsertKeepsIds(next, ds[1..], x);
      }
    }
  }

  /** The units listed on screen: the stored units not deleted, then the newly added ones not
      deleted and with a new id, with every non-deleted week deduction upserted by id. */
  function DisplayUnits(v: ViewedCalc, st: ViewState): (r: seq<CalcUnit>)
    ensures forall u :: u in r ==> !IsDeleted(st.deleted, u.id)
    ensures forall u :: u in r ==> u in StoredUnits(v) || u in st.newlyAdded || u in st.deductions
    ensures forall d :: d in st.deductions && !IsDeleted(st.deleted, d.id) ==> HasId(r, d.id)
  {
    var base := Visible(st.deleted, StoredUnits(v));
    var added := Visible(st.deleted, st.newlyAdded);
    var withAdded := AppendNewIds(base, added);
    assert forall u :: u in withAdded ==> u in base || u in added by {
      forall u | u in withAdded ensures u in base || u in added {
        var i :| 0 <= i < |withAdded| && withAdded[i] == u;
        if i < |base| { assert withAdded[..|base|][i] == u; }
      }
    }
    var r := UpsertAll(withAdded, Visible(st.deleted, st.deductions));
    assert forall d :: d in st.deductions && !IsDeleted(st.deleted, d.id) ==> HasId(r, d.id) by {
      forall d | d in st.deductions && !IsDeleted(st.deleted, d.id) ensures HasId(r, d.id) {
        UpsertAllCovers(withAdded, Visible(st.deleted, st.deductions), d);
      }
    }
    r
  }

  // ---------------------------------------------------------------------------
  // Grouping by truck
  // ---------------------------------------------------------------------------

  /** `no-truck-${unit.id}`. */
  function NoTruckKey(id: Option<int>): string {
    "no-truck-" + (if id.Some? then IntToString(id.value) else "undefined")
  }

  /** `unit.truck?.unit_number || unit.truck?.id || no-truck-${unit.id}`; a bare truck id
      number has neither field. */
  function GroupKey(u: CalcUnit): (k: string)
    ensures u.truck.TruckObject? && u.truck.unitNumber != "" ==> k == u.truck.unitNumber
    ensures u.truck.TruckObject? && u.truck.unitNumber == "" && TruthyId(u.truck.id) ==> k == IntToString(u.truck.id.value)
    ensures u.truck.TruckObject? && u.truck.unitNumber == "" && !TruthyId(u.truck.id) ==> k == NoTruckKey(u.id)
    ensures !u.truck.TruckObject? ==> k == NoTruckKey(u.id)
  {
    match u.truck
    case TruckObject(id, _, unitNumber) =>
      if unitNumber != "" then unitNumber
      else if TruthyId(id) then IntToString(id.value)
      else NoTruckKey(u.id)
    case _ => NoTruckKey(u.id)
  }

  /** Units without a truck fall into one group per unit id. */
  lemma NoTruckKeysDiffer(a: CalcUnit, b: CalcUnit)
    requires !a.truck.TruckObject? && !b.truck.TruckObject? && a.id != b.id
    ensures GroupKey(a) != GroupKey(b)
  {
    var p := "no-truck-";
    if GroupKey(a) == GroupKey(b) {
      var sa := if a.id.Some? then IntToString(a.id.value) else "undefined";
      var sb := if b.id.Some? then IntToString(b.id.value) else "undefined";
      assert GroupKey(a)[|p|..] == sa;
      assert GroupKey(b)[|p|..] == sb;
      if a.id.Some? && b.id.Some? {
        IntToStringInjective(a.id.value, b.id.value);
      }
    }
  }

  /** The units with a given key, in order. */
  function WithKey(us: seq<CalcUnit>, k: string): (r: seq<CalcUnit>)
    ensures |r| <= |us|
  {
    if |us| == 0 then []
    else
      var r := WithKey(us[..|us| - 1], k);
      if GroupKey(us[|us| - 1]) == k then r + [us[|us| - 1]] else r
  }

  /** `WithKey` keeps exactly the units with the key. */
  lemma {:induction false} WithKeyMembers(us: seq<CalcUnit>, k: string)
    ensures forall u :: u in WithKey(us, k) <==> u in us && GroupKey(u) == k
  {
    if |us| > 0 {
      var front := us[..|us| - 1];
      var last := us[|us| - 1];
      WithKeyMembers(front, k);
      assert us == front + [last];
      assert forall u :: u in us <==> u in front || u == last;
    }
  }

  /** Appending a unit extends only its own key's group. */
  lemma WithKeySnoc(us: seq<CalcUnit>, u: CalcUnit, k: string)
    ensures WithKey(us + [u], k) == if GroupKey(u) == k then WithKey(us, k) + [u] else WithKey(us, k)
  {
    assert (us + [u])[..|us + [u]| - 1] == us;
  }

  /** `keys` and `groups` group the units `us`: each key once, each group non-empty and
      holding exactly its key's units in order. */
  ghost predicate Grouped(us: seq<CalcUnit>, keys: seq<string>, groups: map<string, seq<CalcUnit>>) {
    && (forall k :: k in groups <==> k in keys)
    && (forall a, b :: 0 <= a < b < |keys| ==> keys[a] != keys[b])
    && (forall k :: k in groups ==> groups[k] == WithKey(us, k) && |groups[k]| > 0)
    && (forall k :: k !in groups ==> WithKey(us, k) == [])
  }

  /** One loop step of `groupedUnits` keeps the grouping. */
  lemma GroupStep(us: seq<CalcUnit>, u: CalcUnit, keys: seq<string>, groups: map<string, seq<CalcUnit>>)
    requires Grouped(us, keys, groups)
    ensures GroupKey(u) !in groups ==> Grouped(us + [u], keys + [GroupKey(u)], groups[GroupKey(u) := [u]])
    ensures GroupKey(u) in groups ==> Grouped(us + [u], keys, groups[GroupKey(u) := groups[GroupKey(u)] + [u]])
  {
    if GroupKey(u) !in groups {
      GroupStepNew(us, u, keys, groups);
    } else {
      GroupStepOld(us, u, keys, groups);
    }
  }

  /** A unit with an unseen key opens a new group at the end of `keys`. */
  lemma GroupStepNew(us: seq<CalcUnit>, u: CalcUnit, keys: seq<string>, groups: map<string, seq<CalcUnit>>)
    requires Grouped(us, keys, groups) && GroupKey(u) !in groups
    ensures Grouped(us + [u], keys + [GroupKey(u)], groups[GroupKey(u) := [u]])
  {
    var k := GroupKey(u);
    var keys' := keys + [k];
    var groups' := groups[k := [u]];
    assert k !in keys;
    forall x ensures x in groups' <==> x in keys' {
      assert x in keys' <==> x in keys || x == k;
    }
    forall a, b | 0 <= a < b < |keys'| ensures keys'[a] != keys'[b] {
      if b == |keys| {
        assert keys'[a] == keys[a];
      }
    }
    forall x | x in groups' ensures groups'[x] == WithKey(us + [u], x) && |groups'[x]| > 0 {
      WithKeySnoc(us, u, x);
      if x != k {
        assert groups'[x] == groups[x];
      }
    }
    forall x | x !in groups' ensures WithKey(us + [u], x) == [] {
      WithKeySnoc(us, u, x);
    }
  }

  /** A unit with a seen key joins the end of that key's group. */
  lemma GroupStepOld(us: seq<CalcUnit>, u: CalcUnit, keys: seq<string>, groups: map<string, seq<CalcUnit>>)
    requires Grouped(us, keys, groups) && GroupKey(u) in groups
    ensures Grouped(us + [u], keys, groups[GroupKey(u) := groups[GroupKey(u)] + [u]])
  {
    var k := GroupKey(u);
    var groups' := groups[k := groups[k] + [u]];
    forall x | x in groups' ensures groups'[x] == WithKey(us + [u], x) && |groups'[x]| > 0 {
      WithKeySnoc(us, u, x);
      if x != k {
        assert groups'[x] == groups[x];
      }
    }
    forall x | x !in groups' ensures WithKey(us + [u], x) == [] {
      WithKeySnoc(us, u, x);
    }
  }

  /** `groupedUnits`: one group per key, in order of first appearance; each group holds the
      units with its key, in their order. */
  method GroupByTruck(units: seq<CalcUnit>) returns (keys: seq<string>, groups: map<string, seq<CalcUnit>>)
    ensures forall k :: k in groups <==> k in keys
    ensures forall i, j :: 0 <= i < j < |keys| ==> keys[i] != keys[j]
    ensures forall k :: k in groups ==> groups[k] == WithKey(units, k) && |groups[k]| > 0
    ensures forall u :: u in units ==> GroupKey(u) in groups && u in groups[GroupKey(u)]
  {
    keys := [];
    groups := map[];
    var i := 0;
    while i < |units|
      invariant 0 <= i <= |units|
      invariant Grouped(units[..i], keys, groups)
    {
      var u := units[i];
      var k := GroupKey(u);
      assert units[..i + 1] == units[..i] + [u];
      GroupStep(units[..i], u, keys, groups);
      if k !in groups {
        keys := keys + [k];
        groups := groups[k := [u]];
      } else {
        groups := groups[k := groups[k] + [u]];
      }
      i := i + 1;
    }
    assert units[..|units|] == units;
    forall u | u in units ensures GroupKey(u) in groups && u in groups[GroupKey(u)] {
      WithKeyMembers(units, GroupKey(u));
    }
  }

  // ---------------------------------------------------------------------------
  // handleDeleteUnit
  // ---------------------------------------------------------------------------

  /** The optimistic delete of a unit, given whether the DELETE succeeded and the deductions a
      refetch returns. A unit without a truthy id is refused and nothing changes. Otherwise
      the id is marked deleted and, for a deduction, dropped from the week's deductions; a
      failed request unmarks it; a deduction's deductions are refetched either way. */
  function DeleteUnit(st: ViewState, u: CalcUnit, deleteOk: bool, refetched: seq<CalcUnit>): (r: ViewState)
    ensures !TruthyId(u.id) ==> r == st
    ensures TruthyId(u.id) && deleteOk ==> r.deleted == st.deleted + {u.id.value}
    ensures TruthyId(u.id) && !deleteOk ==> r.deleted == st.deleted - {u.id.value}
    ensures TruthyId(u.id) ==> r.deductions == (if IsDeduction(u) then refetched else st.deductions)
    ensures r.newlyAdded == st.newlyAdded
  {
    if !TruthyId(u.id) then st
    else
      var marked := MarkDeleted(st, u);
      if deleteOk then
        if IsDeduction(u) then marked.(deductions := refetched) else marked
      else
        var rolledBack := marked.(deleted := marked.deleted - {u.id.value});
        if IsDeduction(u) then rolledBack.(deductions := refetched) else rolledBack
  }

  /** The optimistic part: mark the id deleted and drop a deduction from the list. */
  function MarkDeleted(st: ViewState, u: CalcUnit): (r: ViewState)
    requires TruthyId(u.id)
    ensures r.deleted == st.deleted + {u.id.value}
    ensures forall d :: d in r.deductions <==> d in st.deductions && (IsDeduction(u) ==> d.id != u.id)
    ensures r.newlyAdded == st.newlyAdded
  {
    var ds := if IsDeduction(u) then WithoutId(st.deductions, u.id) else st.deductions;
    ViewState(st.deleted + {u.id.value}, ds, st.newlyAdded)
  }

  /** `prev.filter(d => d.id !== id)`. */
  function WithoutId(ds: seq<CalcUnit>, id: Option<int>): (r: seq<CalcUnit>)
    ensures forall d :: d in r <==> d in ds && d.id != id
  {
    if |ds| == 0 then []
    else
      assert forall d :: d in ds <==> d == ds[0] || d in ds[1..];
      var rest := WithoutId(ds[1..], id);
      if ds[0].id == id then rest else [ds[0]] + rest
  }

  /** While the request is in flight, and after it succeeds, the unit is off the screen. */
  lemma MarkedUnitHidden(v: ViewedCalc, st: ViewState, u: CalcUnit, x: CalcUnit)
    requires TruthyId(u.id) && x.id == u.id
    ensures x !in DisplayUnits(v, MarkDeleted(st, u))
  {
  }

  /** A failed delete of a unit that was not deleted before restores the deleted set. */
  lemma FailedDeleteRestores(st: ViewState, u: CalcUnit, refetched: seq<CalcUnit>)
    requires TruthyId(u.id) && u.id.value !in st.deleted
    ensures DeleteUnit(st, u, false, refetched).deleted == st.deleted
  {
  }
}
